/**
 Device paths (FsPath), their parser and printer, and the order that makes them map keys.

 A path is the vector of its components in the case the user typed; its key is the vector of the
 upper-cased components, which is all that lookups and comparisons look at.
 */
module Paths {

  type FsPath = seq<string>
  type Key = seq<string>

  /** towupper in the default "C" locale, which the program never changes. */
  function UpperChar(c: char): char {
    if 'a' <= c <= 'z' then (c as int - 32) as char else c
  }

  function Upper(s: string): (u: string)
    ensures |u| == |s|
  {
    seq(|s|, i requires 0 <= i < |s| => UpperChar(s[i]))
  }

  function Keys(p: FsPath): (k: Key)
    ensures |k| == |p|
    ensures forall i :: 0 <= i < |p| ==> k[i] == Upper(p[i])
  {
    seq(|p|, i requires 0 <= i < |p| => Upper(p[i]))
  }

  predicate IsSeparator(c: char) {
    c == '\\' || c == '/'
  }

  predicate SeparatorFree(s: string) {
    forall i :: 0 <= i < |s| ==> !IsSeparator(s[i])
  }

  predicate ValidName(s: string) {
    s != "" && SeparatorFree(s)
  }

  predicate ValidPath(p: FsPath) {
    forall i :: 0 <= i < |p| ==> ValidName(p[i])
  }

  // ---------- Parsing ----------

  /** The length of the longest prefix without a separator. */
  function WordLength(s: string): (n: nat)
    ensures n <= |s|
    ensures SeparatorFree(s[..n])
    ensures n < |s| ==> IsSeparator(s[n])
  {
    if s == "" || IsSeparator(s[0]) then 0
    else
      var n := 1 + WordLength(s[1..]);
      assert forall i :: 1 <= i < n ==> s[i] == s[1..][i - 1];
      n
  }

  function NonEmpty(word: string): FsPath {
    if word == "" then [] else [word]
  }

  /** The non-empty words between separators, read from the left. */
  function Split(s: string): FsPath {
    var n := WordLength(s);
    if n == |s| then NonEmpty(s) else NonEmpty(s[..n]) + Split(s[n + 1..])
  }

  lemma WordLengthIs(s: string, n: nat)
    requires n <= |s| && SeparatorFree(s[..n])
    requires n < |s| ==> IsSeparator(s[n])
    ensures WordLength(s) == n
  {
    var m := WordLength(s);
    assert forall i :: 0 <= i < n ==> s[i] == s[..n][i];
    assert forall i :: 0 <= i < m ==> s[i] == s[..m][i];
  }

  lemma {:induction false} SplitUnfold(s: string)
    ensures Split(s) == if WordLength(s) == |s| then NonEmpty(s)
                        else NonEmpty(s[..WordLength(s)]) + Split(s[WordLength(s) + 1..])
  {
    hide WordLength, NonEmpty;
  }

  /** Parsing is a homomorphism: a separator anywhere cuts the path in two. */
  lemma {:induction false} SplitAtSeparator(a: string, sep: char, b: string)
    requires IsSeparator(sep)
    ensures Split(a + [sep] + b) == Split(a) + Split(b)
    decreases |a|
  {
    hide Split, WordLength, NonEmpty;
    var n := WordLength(a);
    var s := a + [sep] + b;
    SplitUnfold(a);
    SplitUnfold(s);
    assert s[..n] == a[..n];
    WordLengthIs(s, n);
    if n == |a| {
      assert s[n + 1..] == b;
      assert a[..n] == a;
    } else {
      assert s[n + 1..] == a[n + 1..] + [sep] + b;
      SplitAtSeparator(a[n + 1..], sep, b);
    }
  }

  lemma SplitWord(s: string)
    requires SeparatorFree(s)
    ensures Split(s) == NonEmpty(s)
  {
    assert s[..|s|] == s;
    WordLengthIs(s, |s|);
  }

  lemma {:induction false} SplitIsValid(s: string)
    ensures ValidPath(Split(s))
    decreases |s|
  {
    hide Split, WordLength;
    var n := WordLength(s);
    SplitUnfold(s);
    if n == |s| {
      assert s[..n] == s;
    } else {
      SplitIsValid(s[n + 1..]);
    }
  }

  /** The components read so far, the word being read and the unread text make up the path of `str`. */
  ghost predicate Reading(path: FsPath, token: string, rest: string, str: string) {
    SeparatorFree(token) && path + Split(token + rest) == Split(str)
  }

  lemma ReadSeparator(path: FsPath, token: string, rest: string, str: string)
    requires Reading(path, token, rest, str) && rest != "" && IsSeparator(rest[0])
    ensures Reading(path + NonEmpty(token), "", rest[1..], str)
  {
    hide Split;
    var after := rest[1..];
    SplitTokenAndRest(token, rest[0], after);
    assert token + rest == token + [rest[0]] + after;
    assert "" + after == after;
    assert path + (NonEmpty(token) + Split(after)) == path + NonEmpty(token) + Split(after);
  }

  lemma SplitTokenAndRest(token: string, sep: char, after: string)
    requires SeparatorFree(token) && IsSeparator(sep)
    ensures Split(token + [sep] + after) == NonEmpty(token) + Split(after)
  {
    SplitAtSeparator(token, sep, after);
    SplitWord(token);
  }

  lemma ReadLetter(path: FsPath, token: string, rest: string, str: string)
    requires Reading(path, token, rest, str) && rest != "" && !IsSeparator(rest[0])
    ensures Reading(path, token + [rest[0]], rest[1..], str)
  {
    assert token + rest == token + [rest[0]] + rest[1..];
  }

  lemma ReadStart(str: string)
    ensures Reading([], "", str, str)
  {
    assert "" + str == str;
    assert [] + Split(str) == Split(str);
  }

  lemma ReadEnd(path: FsPath, token: string, str: string)
    requires Reading(path, token, "", str)
    ensures path + NonEmpty(token) == Split(str)
  {
    assert token + "" == token;
    SplitWord(token);
  }

  /** The constructor FsPath(std::wstring). */
  method Parse(str: string) returns (path: FsPath)
    ensures path == Split(str)
    ensures ValidPath(path)
  {
    ReadStart(str);
    SplitIsValid(str);
    hide Split;
    hide Reading;
    path := [];
    var currentToken := "";
    var i := 0;
    assert str[0..] == str;
    while i < |str|
      invariant 0 <= i <= |str|
      invariant Reading(path, currentToken, str[i..], str)
    {
      if IsSeparator(str[i]) {
        ReadSeparator(path, currentToken, str[i..], str);
        assert str[i..][1..] == str[i + 1..];
        assert path + [] == path;
        if currentToken != "" {
          path := path + [currentToken];
          currentToken := "";
        }
      } else {
        ReadLetter(path, currentToken, str[i..], str);
        assert str[i..][1..] == str[i + 1..];
        currentToken := currentToken + [str[i]];
      }
      i := i + 1;
    }
    assert str[i..] == "";
    ReadEnd(path, currentToken, str);
    if currentToken != "" {
      path := path + [currentToken];
    }
  }

  // ---------- Sub-paths ----------

  /** getPathOnLayer: empty outside the path. */
  function PathOnLayer(p: FsPath, layer: int): string {
    if 0 <= layer < |p| then p[layer] else ""
  }

  /** The components up to and including index `until`; the whole path when `until` is past the end. */
  function LeftSubPath(p: FsPath, until: int): FsPath {
    if until >= |p| then p else if until < 0 then [] else p[..until + 1]
  }

  method GetLeftSubPath(p: FsPath, until: int) returns (ret: FsPath)
    ensures ret == LeftSubPath(p, until)
    ensures until >= |p| ==> ret == p
    ensures until < 0 ==> ret == []
    ensures 0 <= until < |p| ==> |ret| == until + 1 && ret <= p
    ensures 1 <= |p| && until == |p| - 2 ==> ret == p[..|p| - 1]
  {
    if until >= |p| {
      return p;
    }
    ret := [];
    var i := 0;
    while i <= until
      invariant 0 <= i <= |p|
      invariant until >= 0 ==> i <= until + 1
      invariant ret == p[..i]
      invariant until < 0 ==> i == 0
    {
      ret := ret + [p[i]];
      i := i + 1;
    }
  }

  // ---------- Printing ----------

  function Join(p: FsPath): string {
    if p == [] then "" else if |p| == 1 then p[0] else Join(p[..|p| - 1]) + "\\" + p[|p| - 1]
  }

  method GetFullPath(p: FsPath) returns (s: string)
    ensures s == Join(p)
  {
    s := "";
    var first := true;
    for i := 0 to |p|
      invariant first <==> i == 0
      invariant s == Join(p[..i])
    {
      assert p[..i + 1][..i] == p[..i];
      if first {
        first := false;
      } else {
        s := s + "\\";
      }
      s := s + p[i];
    }
    assert p[..|p|] == p;
  }

  /** Printing a path and parsing it again gives the path back, in its original case. */
  lemma {:induction false} ParsePrinted(p: FsPath)
    requires ValidPath(p)
    ensures Split(Join(p)) == p
    decreases |p|
  {
    if |p| == 0 {
    } else if |p| == 1 {
      SplitWord(p[0]);
    } else {
      var front, last := p[..|p| - 1], p[|p| - 1];
      hide Split, Join;
      ParsePrinted(front);
      SplitWord(last);
      assert Join(p) == Join(front) + ['\\'] + last;
      SplitAtSeparator(Join(front), '\\', last);
      assert p == front + [last];
    }
  }

  /** Joining a sub-path and a name with a backslash and parsing gives the longer path. */
  lemma ParseChild(p: FsPath, name: string)
    requires ValidPath(p) && ValidName(name)
    ensures Split(Join(p) + "\\" + name) == p + [name]
  {
    ParsePrinted(p);
    SplitWord(name);
    SplitAtSeparator(Join(p), '\\', name);
  }

  /** AbstractFsNode::getNodePath: the names from the root down to the node, root included. */
  function NodePath(names: seq<string>): string
    requires names != []
  {
    if |names| == 1 then names[0] else NodePath(names[..|names| - 1]) + "\\" + names[|names| - 1]
  }

  lemma {:induction false} ParseNodePath(p: FsPath)
    requires ValidPath(p)
    ensures Split(NodePath([""] + p)) == p
    decreases |p|
  {
    var names := [""] + p;
    if p != [] {
      var front, last := p[..|p| - 1], p[|p| - 1];
      assert names[..|names| - 1] == [""] + front;
      ParseNodePath(front);
      SplitWord(last);
      SplitAtSeparator(NodePath([""] + front), '\\', last);
      assert p == front + [last];
    }
  }

  /** The printed path: the components' characters and one backslash between any two of them. */
  lemma {:induction false} PrintedLooks(p: FsPath)
    requires ValidPath(p)
    ensures forall i :: 0 <= i < |Join(p)| ==> Join(p)[i] != '/'
    ensures |Join(p)| == Letters(p) + (if p == [] then 0 else |p| - 1)
    decreases |p|
  {
    if |p| > 1 {
      PrintedLooks(p[..|p| - 1]);
    }
  }

  /** How many characters the components have together. */
  function Letters(p: FsPath): nat {
    if p == [] then 0 else Letters(p[..|p| - 1]) + |p[|p| - 1]|
  }

  // ---------- Letter case ----------

  /** The same letter in either case, or the same character. */
  predicate SameLetter(a: char, b: char) {
    a == b || ('a' <= a <= 'z' && a as int == b as int + 32) || ('A' <= a <= 'Z' && b as int == a as int + 32)
  }

  predicate SameText(s: string, t: string) {
    |s| == |t| && forall i :: 0 <= i < |s| ==> SameLetter(s[i], t[i])
  }

  predicate SamePath(p: FsPath, q: FsPath) {
    |p| == |q| && forall i :: 0 <= i < |p| ==> SameText(p[i], q[i])
  }

  /** Upper-casing keeps every character but puts letters into upper case. */
  lemma UpperLooks(s: string)
    ensures SameText(s, Upper(s)) && forall i :: 0 <= i < |s| ==> !('a' <= Upper(s)[i] <= 'z')
  {
  }

  /** Names are told apart exactly by what is not letter case. */
  lemma SameTextIsSameUpper(s: string, t: string)
    ensures SameText(s, t) <==> Upper(s) == Upper(t)
  {
    if Upper(s) == Upper(t) {
      assert |s| == |Upper(s)| == |t|;
      forall i | 0 <= i < |s| ensures SameLetter(s[i], t[i]) {
        assert Upper(s)[i] == Upper(t)[i];
      }
    }
  }

  lemma SamePathIsSameKeys(p: FsPath, q: FsPath)
    ensures SamePath(p, q) <==> Keys(p) == Keys(q)
  {
    forall i | 0 <= i < |p| && |p| == |q| ensures SameText(p[i], q[i]) <==> Keys(p)[i] == Keys(q)[i] {
      SameTextIsSameUpper(p[i], q[i]);
    }
    hide SameText;
    if Keys(p) == Keys(q) {
      assert |p| == |Keys(p)| == |q|;
    }
  }

  // ---------- Spelling ----------

  /** Slash and backslash cut a path in two, wherever they stand. */
  lemma SlashesCut(a: string, b: string)
    ensures Split(a + "/" + b) == Split(a) + Split(b) == Split(a + "\\" + b)
  {
    SplitAtSeparator(a, '/', b);
    SplitAtSeparator(a, '\\', b);
  }

  /** Nothing else does. */
  lemma NothingElseCuts(s: string)
    requires s != "" && forall i :: 0 <= i < |s| ==> s[i] != '/' && s[i] != '\\'
    ensures Split(s) == [s]
  {
    SplitWord(s);
  }

  lemma EdgeSeparators(a: string, sep: char)
    requires IsSeparator(sep)
    ensures Split([sep] + a) == Split(a) == Split(a + [sep])
  {
    SplitWord("");
    SplitAtSeparator("", sep, a);
    assert "" + [sep] + a == [sep] + a;
    SplitAtSeparator(a, sep, "");
    assert a + [sep] + "" == a + [sep];
  }

  /** Repeated, leading and trailing separators do not change the path, and neither does their kind. */
  lemma SpellingOfSeparators(a: string, b: string, sep: char, other: char)
    requires IsSeparator(sep) && IsSeparator(other)
    ensures Split(a + [sep] + b) == Split(a + [other] + b)
    ensures Split(a + [sep] + ([other] + b)) == Split(a + [sep] + b)
    ensures Split([sep] + a) == Split(a) == Split(a + [sep])
  {
    SplitAtSeparator(a, sep, b);
    SplitAtSeparator(a, other, b);
    SplitAtSeparator(a, sep, [other] + b);
    EdgeSeparators(b, other);
    EdgeSeparators(a, sep);
  }

  /** Upper-casing keeps separators and non-separators apart. */
  lemma UpperKeepsWords(s: string, t: string)
    requires Upper(s) == Upper(t)
    ensures WordLength(s) == WordLength(t)
  {
    forall i | 0 <= i < |s| ensures IsSeparator(s[i]) <==> IsSeparator(t[i]) {
      assert Upper(s)[i] == Upper(t)[i];
    }
    var n := WordLength(s);
    assert |s| == |Upper(s)| == |t|;
    forall i | 0 <= i < n ensures !IsSeparator(t[..n][i]) {
      assert !IsSeparator(s[..n][i]);
    }
    WordLengthIs(t, n);
  }

  lemma UpperSlices(s: string, t: string, n: nat)
    requires Upper(s) == Upper(t) && |s| == |t| && n <= |s|
    ensures Upper(s[..n]) == Upper(t[..n])
    ensures n < |s| ==> Upper(s[n + 1..]) == Upper(t[n + 1..])
  {
    forall i | 0 <= i < |s| ensures UpperChar(s[i]) == UpperChar(t[i]) {
      assert Upper(s)[i] == Upper(t)[i];
    }
  }

  lemma KeysConcat(p: FsPath, q: FsPath)
    ensures Keys(p + q) == Keys(p) + Keys(q)
  {
    hide Upper;
  }

  /** Two spellings that differ only in letter case have the same key, and only such component names do. */
  lemma SpellingOfLetters(s: string, t: string)
    requires SameText(s, t)
    ensures Keys(Split(s)) == Keys(Split(t)) && SamePath(Split(s), Split(t))
  {
    SameTextIsSameUpper(s, t);
    UpperDecidesKeys(s, t);
    SamePathIsSameKeys(Split(s), Split(t));
  }

  lemma {:induction false} UpperDecidesKeys(s: string, t: string)
    requires Upper(s) == Upper(t)
    ensures Keys(Split(s)) == Keys(Split(t))
    decreases |s|
  {
    hide Split, WordLength;
    assert |s| == |Upper(s)| == |t|;
    UpperKeepsWords(s, t);
    var n := WordLength(s);
    SplitUnfold(s);
    SplitUnfold(t);
    UpperSlices(s, t, n);
    hide Upper;
    if n < |s| {
      UpperDecidesKeys(s[n + 1..], t[n + 1..]);
      assert Keys(NonEmpty(s[..n])) == Keys(NonEmpty(t[..n]));
      KeysConcat(NonEmpty(s[..n]), Split(s[n + 1..]));
      KeysConcat(NonEmpty(t[..n]), Split(t[n + 1..]));
    } else {
      assert s[..n] == s && t[..n] == t;
    }
  }

  // ---------- Order ----------

  /** operator< on std::wstring. */
  predicate WordLess(a: string, b: string) {
    b != "" && (a == "" || a[0] < b[0] || (a[0] == b[0] && WordLess(a[1..], b[1..])))
  }

  /** The loop of operator< on FsPath, for two paths of the same length. */
  predicate ComponentsLess(a: FsPath, b: FsPath)
    requires |a| == |b|
  {
    a != [] &&
    if Upper(a[0]) != Upper(b[0]) then WordLess(Upper(a[0]), Upper(b[0])) else ComponentsLess(a[1..], b[1..])
  }

  /** operator< on FsPath. */
  predicate PathLess(a: FsPath, b: FsPath) {
    if |a| == |b| then ComponentsLess(a, b) else |a| < |b|
  }

  datatype FileTableKey = FileTableKey(drive: int, path: FsPath)

  /** operator< on FileTableKey. */
  predicate FileTableKeyLess(a: FileTableKey, b: FileTableKey) {
    if a.drive == b.drive then PathLess(a.path, b.path) else a.drive < b.drive
  }

  /** In the alphabetical order a word comes before another by the first character that differs, or as its beginning. */
  predicate FirstDiffers(a: string, b: string, n: nat) {
    n <= |a| && n < |b| && (forall i :: 0 <= i < n ==> a[i] == b[i]) && (n == |a| || a[n] < b[n])
  }

  lemma {:induction false} WordLessMeans(a: string, b: string)
    ensures WordLess(a, b) <==> exists n :: FirstDiffers(a, b, n)
    decreases |b|
  {
    if b != "" && a != "" && a[0] == b[0] {
      WordLessMeans(a[1..], b[1..]);
      if n: nat :| FirstDiffers(a[1..], b[1..], n) {
        assert FirstDiffers(a, b, n + 1);
      }
      forall n: nat | FirstDiffers(a, b, n) ensures n > 0 && FirstDiffers(a[1..], b[1..], n - 1) {
      }
    } else if WordLess(a, b) {
      assert FirstDiffers(a, b, 0);
    }
  }

  /** Of two equally long paths the one is less whose first different component is. */
  predicate FirstComponentDiffers(a: FsPath, b: FsPath, n: nat) {
    && n < |a| == |b| && (forall i :: 0 <= i < n ==> SameText(a[i], b[i]))
    && !SameText(a[n], b[n]) && WordLess(Upper(a[n]), Upper(b[n]))
  }

  lemma PathLessMeans(a: FsPath, b: FsPath)
    ensures PathLess(a, b) <==> |a| < |b| || exists n :: FirstComponentDiffers(a, b, n)
  {
    hide Upper, WordLess, SameText;
    if |a| == |b| {
      ComponentsLessMeans(a, b);
    }
  }

  lemma {:induction false} ComponentsLessMeans(a: FsPath, b: FsPath)
    requires |a| == |b|
    ensures ComponentsLess(a, b) <==> exists n :: FirstComponentDiffers(a, b, n)
    decreases |a|
  {
    hide Upper, WordLess, SameText;
    if a != [] {
      SameTextIsSameUpper(a[0], b[0]);
      if SameText(a[0], b[0]) {
        ComponentsLessMeans(a[1..], b[1..]);
        if n: nat :| FirstComponentDiffers(a[1..], b[1..], n) {
          assert FirstComponentDiffers(a, b, n + 1);
        }
        forall n: nat | FirstComponentDiffers(a, b, n) ensures n > 0 && FirstComponentDiffers(a[1..], b[1..], n - 1) {
        }
      } else if ComponentsLess(a, b) {
        assert FirstComponentDiffers(a, b, 0);
      }
    }
  }

  predicate SameFileTableKey(a: FileTableKey, b: FileTableKey) {
    a.drive == b.drive && SamePath(a.path, b.path)
  }

  lemma {:induction false} WordTrichotomy(a: string, b: string)
    ensures (WordLess(a, b) || WordLess(b, a)) <==> a != b
    ensures !(WordLess(a, b) && WordLess(b, a))
  {
    if a != "" && b != "" {
      WordTrichotomy(a[1..], b[1..]);
      assert a == [a[0]] + a[1..] && b == [b[0]] + b[1..];
    }
  }

  lemma {:induction false} WordTransitive(a: string, b: string, c: string)
    requires WordLess(a, b) && WordLess(b, c)
    ensures WordLess(a, c)
  {
    if a != "" && a[0] == b[0] == c[0] {
      WordTransitive(a[1..], b[1..], c[1..]);
    }
  }

  lemma KeysCons(a: FsPath, b: FsPath)
    requires a != [] && b != []
    ensures Keys(a) == Keys(b) <==> Upper(a[0]) == Upper(b[0]) && Keys(a[1..]) == Keys(b[1..])
  {
    hide Upper;
    assert Keys(a) == [Upper(a[0])] + Keys(a[1..]);
    assert Keys(b) == [Upper(b[0])] + Keys(b[1..]);
    if Keys(a) == Keys(b) {
      assert Keys(a)[0] == Keys(b)[0];
      assert Keys(a)[1..] == Keys(a[1..]) && Keys(b)[1..] == Keys(b[1..]);
    }
  }

  lemma {:induction false} ComponentsTrichotomy(a: FsPath, b: FsPath)
    requires |a| == |b|
    ensures (ComponentsLess(a, b) || ComponentsLess(b, a)) <==> Keys(a) != Keys(b)
    ensures !(ComponentsLess(a, b) && ComponentsLess(b, a))
  {
    if a == [] {
      assert Keys(a) == Keys(b);
    } else {
      WordTrichotomy(Upper(a[0]), Upper(b[0]));
      ComponentsTrichotomy(a[1..], b[1..]);
      KeysCons(a, b);
      hide Keys, Upper, WordLess;
    }
  }

  lemma {:induction false} ComponentsTransitive(a: FsPath, b: FsPath, c: FsPath)
    requires |a| == |b| == |c|
    requires ComponentsLess(a, b) && ComponentsLess(b, c)
    ensures ComponentsLess(a, c)
  {
    var x, y, z := Upper(a[0]), Upper(b[0]), Upper(c[0]);
    if x == y == z {
      ComponentsTransitive(a[1..], b[1..], c[1..]);
    } else if x != y && y != z {
      WordTransitive(x, y, z);
      WordTrichotomy(x, z);
    }
  }

  /** The order on cache keys is a strict weak order whose equivalence is equality ignoring letter case. */
  lemma KeyOrderIsLawful(a: FileTableKey, b: FileTableKey, c: FileTableKey)
    ensures !(FileTableKeyLess(a, b) && FileTableKeyLess(b, a))
    ensures FileTableKeyLess(a, b) && FileTableKeyLess(b, c) ==> FileTableKeyLess(a, c)
    ensures (!FileTableKeyLess(a, b) && !FileTableKeyLess(b, a)) <==> SameFileTableKey(a, b)
  {
    SamePathIsSameKeys(a.path, b.path);
    hide Upper, SamePath;
    if |a.path| == |b.path| {
      ComponentsTrichotomy(a.path, b.path);
    } else {
      assert |Keys(a.path)| != |Keys(b.path)|;
    }
    if |a.path| == |b.path| == |c.path| && ComponentsLess(a.path, b.path) && ComponentsLess(b.path, c.path) {
      ComponentsTransitive(a.path, b.path, c.path);
    }
  }
}
