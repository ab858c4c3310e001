/** The few string operations the model needs: letter case, and cutting strings at separators. */
module Text {
  function LowerChar(c: char): char {
    if 'A' <= c <= 'Z' then c - 'A' + 'a' else c
  }

  function Lower(s: string): string {
    if s == "" then "" else [LowerChar(s[0])] + Lower(s[1..])
  }

  function UpperChar(c: char): char {
    if 'a' <= c <= 'z' then c - 'a' + 'A' else c
  }

  function Upper(s: string): string {
    if s == "" then "" else [UpperChar(s[0])] + Upper(s[1..])
  }

  predicate EqualFold(a: string, b: string) {
    Lower(a) == Lower(b)
  }

  lemma {:induction false} LowerTwice(s: string)
    ensures Lower(Lower(s)) == Lower(s)
  {
    if s != "" {
      LowerTwice(s[1..]);
      assert Lower(s)[1..] == Lower(s[1..]);
    }
  }

  /** s without the cs at its end. */
  function TrimRight(s: string, c: char): (r: string)
    ensures |r| <= |s| && r == s[..|r|]
    ensures forall i :: |r| <= i < |s| ==> s[i] == c
    ensures r != "" ==> r[|r| - 1] != c
  {
    if s == "" || s[|s| - 1] != c then s else TrimRight(s[..|s| - 1], c)
  }

  /** Where c first is in s, or |s|. */
  function IndexOf(s: string, c: char): (i: nat)
    ensures i <= |s|
    ensures i < |s| ==> s[i] == c
    ensures forall j :: 0 <= j < i ==> s[j] != c
  {
    if s == "" || s[0] == c then 0 else 1 + IndexOf(s[1..], c)
  }

  /** The pieces of s between cs: one more than there are cs. */
  function Split(s: string, c: char): (r: seq<string>)
    ensures |r| > 0
    decreases |s|
  {
    var i := IndexOf(s, c);
    if i == |s| then [s] else [s[..i]] + Split(s[i + 1..], c)
  }

  function Join(parts: seq<string>, c: char): string {
    if parts == [] then ""
    else if |parts| == 1 then parts[0]
    else parts[0] + [c] + Join(parts[1..], c)
  }

  lemma IndexAfter(a: string, c: char, b: string)
    requires c !in a
    ensures IndexOf(a + [c] + b, c) == |a|
  {
    var s := a + [c] + b;
    assert s[|a|] == c;
    assert forall j :: 0 <= j < |a| ==> s[j] == a[j];
  }

  lemma IndexNone(a: string, c: char)
    requires c !in a
    ensures IndexOf(a, c) == |a|
  {}

  /** Splitting undoes joining, when no part holds the separator. */
  lemma {:induction false} SplitJoin(parts: seq<string>, c: char)
    requires parts != [] && (forall p :: p in parts ==> c !in p)
    ensures Split(Join(parts, c), c) == parts
  {
    if |parts| == 1 {
      IndexNone(parts[0], c);
    } else {
      SplitJoin(parts[1..], c);
      SplitFirst(parts[0], c, Join(parts[1..], c));
    }
  }

  lemma SplitFirst(a: string, c: char, rest: string)
    requires c !in a
    ensures Split(a + [c] + rest, c) == [a] + Split(rest, c)
  {
    IndexAfter(a, c, rest);
    assert (a + [c] + rest)[..|a|] == a && (a + [c] + rest)[|a| + 1..] == rest;
  }

  /** Unicode's white space. */
  predicate IsBlank(c: char) {
    c == ' ' || ('\t' <= c <= '\r') || c == '\U{85}' || c == '\U{A0}' || c == '\U{1680}'
    || ('\U{2000}' <= c <= '\U{200A}') || c == '\U{2028}' || c == '\U{2029}' || c == '\U{202F}'
    || c == '\U{205F}' || c == '\U{3000}'
  }

  function SkipBlanks(s: string): string {
    if s != "" && IsBlank(s[0]) then SkipBlanks(s[1..]) else s
  }

  function UntilBlank(s: string): string {
    if s == "" || IsBlank(s[0]) then "" else [s[0]] + UntilBlank(s[1..])
  }

  /** The first of the blank-separated fields of s, or "". */
  function FirstField(s: string): string {
    UntilBlank(SkipBlanks(s))
  }

  predicate BlankFree(s: string) {
    forall i :: 0 <= i < |s| ==> !IsBlank(s[i])
  }

  lemma {:induction false} UntilBlankAll(s: string)
    requires BlankFree(s)
    ensures UntilBlank(s) == s
  {
    if s != "" {
      UntilBlankAll(s[1..]);
    }
  }

  lemma OneField(s: string)
    requires BlankFree(s)
    ensures FirstField(s) == s
  {
    UntilBlankAll(s);
  }

  lemma {:induction false} LowerLength(s: string)
    ensures |Lower(s)| == |s|
  {
    if s != "" {
      LowerLength(s[1..]);
    }
  }

  lemma {:induction false} SkipBlanksLength(s: string)
    ensures |SkipBlanks(s)| <= |s| && (|SkipBlanks(s)| == |s| ==> SkipBlanks(s) == s)
  {
    if s != "" {
      SkipBlanksLength(s[1..]);
    }
  }

  lemma {:induction false} UntilBlankLength(s: string)
    ensures |UntilBlank(s)| <= |s| && (|UntilBlank(s)| == |s| ==> BlankFree(s))
  {
    if s != "" {
      UntilBlankLength(s[1..]);
      assert |UntilBlank(s)| == |s| ==> forall i :: 0 <= i < |s| ==> s[i] == if i == 0 then s[0] else s[1..][i - 1];
    }
  }

  /** The first field is as long as the whole exactly when there is no blank. */
  lemma FirstFieldLength(s: string)
    ensures |FirstField(s)| == |s| <==> BlankFree(s)
  {
    SkipBlanksLength(s);
    UntilBlankLength(SkipBlanks(s));
    if BlankFree(s) {
      OneField(s);
    }
  }

  /** A field ends at the first blank. */
  lemma {:induction false} UntilBlankIs(field: string, blank: char, rest: string)
    requires BlankFree(field) && IsBlank(blank)
    ensures UntilBlank(field + [blank] + rest) == field
  {
    var s := field + [blank] + rest;
    if field != "" {
      UntilBlankIs(field[1..], blank, rest);
      assert s[1..] == field[1..] + [blank] + rest;
    }
  }

  lemma FirstFieldIs(field: string, blank: char, rest: string)
    requires field != "" && BlankFree(field) && IsBlank(blank)
    ensures FirstField(field + [blank] + rest) == field
  {
    UntilBlankIs(field, blank, rest);
  }

  // ----- letter case -----

  /** A capital ASCII letter and its small one. */
  predicate Pair(capital: char, small: char) {
    65 <= capital as int <= 90 && small as int == capital as int + 32
  }

  predicate SameLetter(a: char, b: char) {
    a == b || Pair(a, b) || Pair(b, a)
  }

  /** Two strings that are one but for the case of ASCII letters. */
  predicate SameLetters(a: string, b: string) {
    |a| == |b| && forall i :: 0 <= i < |a| ==> SameLetter(a[i], b[i])
  }

  lemma CaseOfOne(a: char, b: char)
    ensures LowerChar(a) == LowerChar(b) <==> SameLetter(a, b)
    ensures UpperChar(a) == UpperChar(b) <==> SameLetter(a, b)
    ensures SameLetter(a, LowerChar(a)) && !(65 <= LowerChar(a) as int <= 90)
    ensures SameLetter(a, UpperChar(a)) && !(97 <= UpperChar(a) as int <= 122)
  {}

  lemma {:induction false} CaseAt(s: string)
    ensures |Lower(s)| == |Upper(s)| == |s|
    ensures forall i :: 0 <= i < |s| ==> Lower(s)[i] == LowerChar(s[i]) && Upper(s)[i] == UpperChar(s[i])
  {
    if s != "" {
      CaseAt(s[1..]);
    }
  }

  /** Strings are the same in lower case exactly if they differ in the case of letters alone; and lower case has
      no capital, nor upper case a small letter. */
  lemma FoldsExactly(a: string, b: string)
    ensures EqualFold(a, b) <==> SameLetters(a, b)
    ensures SameLetters(a, Lower(a)) && SameLetters(a, Upper(a))
    ensures forall i :: 0 <= i < |Lower(a)| ==> !(65 <= Lower(a)[i] as int <= 90)
    ensures forall i :: 0 <= i < |Upper(a)| ==> !(97 <= Upper(a)[i] as int <= 122)
  {
    CaseAt(a);
    CaseAt(b);
    forall i | 0 <= i < |a| ensures SameLetter(a[i], Lower(a)[i]) && SameLetter(a[i], Upper(a)[i])
      && !(65 <= Lower(a)[i] as int <= 90) && !(97 <= Upper(a)[i] as int <= 122)
    {
      CaseOfOne(a[i], a[i]);
    }
    if EqualFold(a, b) {
      forall i | 0 <= i < |a| ensures SameLetter(a[i], b[i]) { CaseOfOne(a[i], b[i]); }
    }
    if SameLetters(a, b) {
      forall i | 0 <= i < |a| ensures Lower(a)[i] == Lower(b)[i] { CaseOfOne(a[i], b[i]); }
    }
  }
}
