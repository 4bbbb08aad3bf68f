/**
 * The JavaScript string primitives the core relies on, stated over `seq<char>`:
 * `indexOf`/`includes`, `replace` with a string pattern, `toLowerCase`,
 * `split`/`join`, and the decimal rendering of integers used by template strings.
 */
module Text {
  import opened Wrappers

  /** `sub` occurs in `s` starting at index `i`. */
  predicate OccursAt(s: string, sub: string, i: nat) {
    i + |sub| <= |s| && s[i..i + |sub|] == sub
  }

  /** The first occurrence of `sub` in `s` at or after index `from` (`s.indexOf(sub, from)`). */
  function IndexOfFrom(s: string, sub: string, from: nat): (r: Option<nat>)
    decreases |s| - from
    ensures r.Some? ==> from <= r.value && OccursAt(s, sub, r.value)
  {
    if from + |sub| > |s| then None
    else if OccursAt(s, sub, from) then Some(from)
    else IndexOfFrom(s, sub, from + 1)
  }

  /** No occurrence at or after `from` comes before the one found, and `None` means there is none. */
  lemma {:induction false} IndexOfFromIsFirst(s: string, sub: string, from: nat)
    ensures IndexOfFrom(s, sub, from).Some? ==>
      forall j: nat :: from <= j < IndexOfFrom(s, sub, from).value ==> !OccursAt(s, sub, j)
    ensures IndexOfFrom(s, sub, from).None? ==> forall j: nat :: from <= j ==> !OccursAt(s, sub, j)
    decreases |s| - from
  {
    if from + |sub| <= |s| && !OccursAt(s, sub, from) {
      IndexOfFromIsFirst(s, sub, from + 1);
    }
  }

  /** `s.indexOf(sub)`, with `None` for JavaScript's `-1`. */
  function IndexOf(s: string, sub: string): (r: Option<nat>)
    ensures r.Some? ==> OccursAt(s, sub, r.value)
  {
    IndexOfFrom(s, sub, 0)
  }

  /** `indexOf` finds the first occurrence, and `-1` means `sub` occurs nowhere. */
  lemma IndexOfIsFirst(s: string, sub: string)
    ensures IndexOf(s, sub).Some? ==> forall j: nat :: j < IndexOf(s, sub).value ==> !OccursAt(s, sub, j)
    ensures IndexOf(s, sub).None? ==> forall j: nat :: !OccursAt(s, sub, j)
  {
    IndexOfFromIsFirst(s, sub, 0);
  }

  /** An occurrence with none before it is the one `indexOf` finds. */
  lemma IndexOfAt(s: string, sub: string, i: nat)
    requires OccursAt(s, sub, i)
    requires forall j: nat :: j < i ==> !OccursAt(s, sub, j)
    ensures IndexOf(s, sub) == Some(i)
  {
    IndexOfIsFirst(s, sub);
  }

  /** With no occurrence anywhere, `indexOf` gives `-1`. */
  lemma IndexOfAbsent(s: string, sub: string)
    requires forall j: nat :: !OccursAt(s, sub, j)
    ensures IndexOf(s, sub) == None
  {
  }

  /** `s.includes(sub)`. */
  predicate Includes(s: string, sub: string) {
    IndexOf(s, sub).Some?
  }

  lemma IncludesIffOccurs(s: string, sub: string)
    ensures Includes(s, sub) <==> exists j: nat :: OccursAt(s, sub, j)
  {
    IndexOfIsFirst(s, sub);
  }

  /** `sub` cannot start where `s` has a different first character. */
  lemma MismatchAt(s: string, sub: string, j: nat)
    requires sub != [] && j < |s| && s[j] != sub[0]
    ensures !OccursAt(s, sub, j)
  {
  }

  /** An occurrence inside a prefix of `s` is an occurrence in `s`. */
  lemma OccursInPrefix(s: string, sub: string, i: nat, j: nat)
    requires i <= |s| && OccursAt(s[..i], sub, j)
    ensures OccursAt(s, sub, j) && j + |sub| <= i
  {
    assert s[..i][j..j + |sub|] == s[j..j + |sub|];
  }

  /**
   * `s.replace(pattern, replacement)` with a string pattern: only the FIRST occurrence is
   * replaced, and `s` is returned unchanged when there is none.
   */
  function ReplaceFirst(s: string, pattern: string, replacement: string): (r: string)
    ensures IndexOf(s, pattern).None? ==> r == s
    ensures IndexOf(s, pattern).Some? ==>
      var i := IndexOf(s, pattern).value;
      |r| == |s| - |pattern| + |replacement| && r[..i] == s[..i] && r[i..i + |replacement|] == replacement
      && r[i + |replacement|..] == s[i + |pattern|..]
  {
    match IndexOf(s, pattern)
    case None => s
    case Some(i) => s[..i] + replacement + s[i + |pattern|..]
  }

  predicate IsUpper(c: char) { 'A' <= c <= 'Z' }

  /** `toLowerCase` on one character; only ASCII letters are mapped. */
  function LowerChar(c: char): (d: char)
    ensures !IsUpper(d)
    ensures IsUpper(c) ==> d as int == c as int + 32
    ensures !IsUpper(c) ==> d == c
  {
    if IsUpper(c) then (c as int + 32) as char else c
  }

  /** `s.toLowerCase()`, character by character. */
  function ToLower(s: string): (r: string)
    ensures |r| == |s| && forall i :: 0 <= i < |s| ==> r[i] == LowerChar(s[i])
  {
    seq(|s|, i requires 0 <= i < |s| => LowerChar(s[i]))
  }

  lemma ToLowerIdempotent(s: string)
    ensures ToLower(ToLower(s)) == ToLower(s)
  {
  }

  /** Lowering the case moves no space: the first " " is where it was. */
  lemma LowerKeepsFirstSpace(s: string)
    ensures IndexOf(ToLower(s), " ") == IndexOf(s, " ")
  {
    var t := ToLower(s);
    forall j: nat ensures OccursAt(t, " ", j) <==> OccursAt(s, " ", j) {
      if j < |s| {
        assert t[j..j + 1] == [t[j]] && s[j..j + 1] == [s[j]];
      }
    }
    IndexOfIsFirst(s, " ");
    match IndexOf(s, " ")
    case None => IndexOfAbsent(t, " ");
    case Some(i) => IndexOfAt(t, " ", i);
  }

  /** The pieces of `s` as one-character strings (`s.split("")`). */
  function Chars(s: string): (r: seq<string>)
    ensures |r| == |s| && forall i :: 0 <= i < |s| ==> r[i] == [s[i]]
  {
    seq(|s|, i requires 0 <= i < |s| => [s[i]])
  }

  /**
   * `s.split(sep)`: the pieces of `s` between the non-overlapping occurrences of
   * `sep`, found left to right; an empty separator splits into single characters.
   */
  function Split(s: string, sep: string): (parts: seq<string>)
    ensures sep != [] ==> |parts| >= 1
  {
    if sep == [] then Chars(s) else SplitOn(s, sep)
  }

  /** `s.split(sep)` for a non-empty separator. */
  function SplitOn(s: string, sep: string): (parts: seq<string>)
    requires sep != []
    decreases |s|
    ensures |parts| >= 1
  {
    match IndexOf(s, sep)
    case None => [s]
    case Some(i) => [s[..i]] + SplitOn(s[i + |sep|..], sep)
  }

  /** `parts.join(sep)`. */
  function Join(parts: seq<string>, sep: string): string {
    if |parts| == 0 then ""
    else if |parts| == 1 then parts[0]
    else parts[0] + sep + Join(parts[1..], sep)
  }

  lemma {:induction false} JoinChars(s: string)
    ensures Join(Chars(s), "") == s
  {
    if |s| > 1 {
      assert Chars(s)[1..] == Chars(s[1..]);
      JoinChars(s[1..]);
    }
  }

  /** One step of `split` at the first occurrence, at index `i`, of a non-empty separator. */
  lemma SplitStep(s: string, sep: string, i: nat)
    requires sep != [] && IndexOf(s, sep) == Some(i)
    ensures i + |sep| <= |s|
    ensures SplitOn(s, sep) == [s[..i]] + SplitOn(s[i + |sep|..], sep)
  {
  }

  lemma JoinCons(head: string, tail: seq<string>, sep: string)
    requires |tail| >= 1
    ensures Join([head] + tail, sep) == head + sep + Join(tail, sep)
  {
    assert ([head] + tail)[1..] == tail;
  }

  lemma {:induction false} JoinSplitOn(s: string, sep: string)
    requires sep != []
    ensures Join(SplitOn(s, sep), sep) == s
    decreases |s|
  {
    var first := IndexOf(s, sep);
    if first.Some? {
      var i := first.value;
      var rest := s[i + |sep|..];
      SplitStep(s, sep, i);
      JoinSplitOn(rest, sep);
      JoinCons(s[..i], SplitOn(rest, sep), sep);
      assert s == s[..i] + sep + rest;
    }
  }

  /** Splitting and joining again with the same separator gives back the input. */
  lemma JoinSplit(s: string, sep: string)
    ensures Join(Split(s, sep), sep) == s
  {
    if sep == [] {
      JoinChars(s);
    } else {
      JoinSplitOn(s, sep);
    }
  }

  /** The part of `s` before the first occurrence of `sep` does not contain `sep`. */
  lemma PrefixBeforeFirst(s: string, sep: string, i: nat)
    requires sep != [] && IndexOf(s, sep) == Some(i)
    ensures !Includes(s[..i], sep)
  {
    IndexOfIsFirst(s, sep);
    var p := IndexOf(s[..i], sep);
    if p.Some? {
      OccursInPrefix(s, sep, i, p.value);
    }
  }

  /** With a non-empty separator, no piece contains the separator. */
  lemma {:induction false} SplitPiecesExcludeSeparator(s: string, sep: string)
    requires sep != []
    ensures forall k :: 0 <= k < |SplitOn(s, sep)| ==> !Includes(SplitOn(s, sep)[k], sep)
    decreases |s|
  {
    var first := IndexOf(s, sep);
    if first.Some? {
      var i := first.value;
      var rest := s[i + |sep|..];
      var parts, restParts := SplitOn(s, sep), SplitOn(rest, sep);
      SplitStep(s, sep, i);
      SplitPiecesExcludeSeparator(rest, sep);
      PrefixBeforeFirst(s, sep, i);
      assert parts == [s[..i]] + restParts;
      forall k | 0 <= k < |parts| ensures !Includes(parts[k], sep) {
        if k > 0 {
          assert parts[k] == restParts[k - 1];
        }
      }
    } else {
      assert SplitOn(s, sep) == [s];
    }
  }

  /** `s` with every `c` removed. */
  function Strip(s: string, c: char): (r: string)
    ensures c !in r && |r| <= |s|
  {
    if s == [] then "" else (if s[0] == c then "" else [s[0]]) + Strip(s[1..], c)
  }

  lemma {:induction false} StripAppend(a: string, b: string, c: char)
    ensures Strip(a + b, c) == Strip(a, c) + Strip(b, c)
  {
    if a != [] {
      var head := if a[0] == c then "" else [a[0]];
      assert (a + b)[0] == a[0] && (a + b)[1..] == a[1..] + b;
      StripAppend(a[1..], b, c);
      calc {
        Strip(a + b, c);
        head + Strip(a[1..] + b, c);
        head + (Strip(a[1..], c) + Strip(b, c));
        (head + Strip(a[1..], c)) + Strip(b, c);
      }
    } else {
      assert a + b == b;
    }
  }

  lemma {:induction false} StripAbsent(s: string, c: char)
    requires c !in s
    ensures Strip(s, c) == s
  {
    if s != [] { StripAbsent(s[1..], c); }
  }

  /** A character that occurs nowhere before index `i` is absent from `s[..i]`. */
  lemma CharAbsent(s: string, c: char, i: nat)
    requires i <= |s| && forall j: nat :: j < i ==> !OccursAt(s, [c], j)
    ensures c !in s[..i]
  {
    forall j | 0 <= j < i ensures s[..i][j] != c {
      assert !OccursAt(s, [c], j);
      assert s[j..j + 1] == [s[j]];
    }
  }

  /** Removing `c` around an occurrence of `c` at index `i`. */
  lemma StripAround(s: string, c: char, i: nat)
    requires i < |s| && s[i] == c
    ensures Strip(s, c) == Strip(s[..i], c) + Strip(s[i + 1..], c)
  {
    assert s == (s[..i] + [c]) + s[i + 1..];
    StripAppend(s[..i] + [c], s[i + 1..], c);
    StripAppend(s[..i], [c], c);
    assert Strip([c], c) == [];
  }

  /** Joining with nothing the pieces of a split at the first occurrence, at `i`, of `c`. */
  lemma JoinSplitOnChar(s: string, c: char, i: nat)
    requires IndexOf(s, [c]) == Some(i)
    ensures i < |s| && s[i] == c
    ensures Join(SplitOn(s, [c]), "") == s[..i] + Join(SplitOn(s[i + 1..], [c]), "")
  {
    assert OccursAt(s, [c], i);
    assert s[i] == s[i..i + 1][0];
    SplitStep(s, [c], i);
    JoinCons(s[..i], SplitOn(s[i + 1..], [c]), "");
    assert s[..i] + "" == s[..i];
  }

  /** Splitting on one character and joining with nothing removes that character. */
  lemma {:induction false} SplitJoinStrips(s: string, c: char)
    ensures Join(SplitOn(s, [c]), "") == Strip(s, c)
    decreases |s|
  {
    IndexOfIsFirst(s, [c]);
    match IndexOf(s, [c])
    case None =>
      CharAbsent(s, c, |s|);
      assert s[..|s|] == s;
      StripAbsent(s, c);
    case Some(i) =>
      JoinSplitOnChar(s, c, i);
      SplitJoinStrips(s[i + 1..], c);
      CharAbsent(s, c, i);
      StripAbsent(s[..i], c);
      StripAround(s, c, i);
  }

  predicate IsDigit(c: char) { '0' <= c <= '9' }

  predicate AllDigits(s: string) { forall i :: 0 <= i < |s| ==> IsDigit(s[i]) }

  function DigitChar(d: nat): (c: char)
    requires d < 10
    ensures IsDigit(c) && c as int - '0' as int == d
  {
    ('0' as int + d) as char
  }

  /** The decimal text of `n` without leading zeros (`${n}` for a natural number). */
  function NatToString(n: nat): (s: string)
    ensures |s| >= 1 && AllDigits(s)
    ensures n > 0 ==> s[0] != '0'
    decreases n
  {
    if n < 10 then [DigitChar(n)] else NatToString(n / 10) + [DigitChar(n % 10)]
  }

  /** `${n}` for an integer. */
  function IntToString(n: int): (s: string)
    ensures |s| >= 1
    ensures n < 0 <==> s[0] == '-'
  {
    if n < 0 then "-" + NatToString(-n) else NatToString(n)
  }

  /** The value of a string of decimal digits, most significant first. */
  function DigitsValue(ds: string): nat
    requires AllDigits(ds)
  {
    if ds == [] then 0 else DigitsValue(ds[..|ds| - 1]) * 10 + (ds[|ds| - 1] as int - '0' as int)
  }

  /** Reading back the decimal text of `n` gives `n`. */
  lemma {:induction false} DigitsValueOfNatToString(n: nat)
    ensures DigitsValue(NatToString(n)) == n
    decreases n
  {
    if n >= 10 {
      var p := NatToString(n / 10);
      DigitsValueOfNatToString(n / 10);
      assert (p + [DigitChar(n % 10)])[..|p|] == p;
    }
  }

  lemma NatToStringInjective(a: nat, b: nat)
    requires NatToString(a) == NatToString(b)
    ensures a == b
  {
    DigitsValueOfNatToString(a);
    DigitsValueOfNatToString(b);
  }
}
