/** The java.lang.String operations the modelled code relies on, written over
    seq<char>, with the facts about them that the rest of the model uses. */
module Text {
  import opened Wrappers

  // ---------------------------------------------------------------------
  // Case mapping (ASCII letters only; see README)

  function Lower(c: char): char {
    if 'A' <= c <= 'Z' then (c as int + 32) as char else c
  }

  function Upper(c: char): char {
    if 'a' <= c <= 'z' then (c as int - 32) as char else c
  }

  /** String.toLowerCase() */
  function ToLower(s: string): (r: string)
    ensures |r| == |s|
  {
    seq(|s|, i requires 0 <= i < |s| => Lower(s[i]))
  }

  /** The per-character test of String.equalsIgnoreCase */
  predicate CharEqualsIgnoreCase(a: char, b: char) {
    a == b || Upper(a) == Upper(b) || Lower(a) == Lower(b)
  }

  /** String.equalsIgnoreCase(String) for a non-null argument */
  predicate EqualsIgnoreCase(a: string, b: string) {
    |a| == |b| && forall i :: 0 <= i < |a| ==> CharEqualsIgnoreCase(a[i], b[i])
  }

  lemma CharEqualsIgnoreCaseIsLowerEquality(a: char, b: char)
    ensures CharEqualsIgnoreCase(a, b) <==> Lower(a) == Lower(b)
  {
  }

  /** equalsIgnoreCase and comparing the lower-cased strings agree. */
  lemma EqualsIgnoreCaseIsLowerEquality(a: string, b: string)
    ensures EqualsIgnoreCase(a, b) <==> ToLower(a) == ToLower(b)
  {
    if EqualsIgnoreCase(a, b) {
      forall i | 0 <= i < |a| ensures ToLower(a)[i] == ToLower(b)[i] {
        CharEqualsIgnoreCaseIsLowerEquality(a[i], b[i]);
      }
    }
    if ToLower(a) == ToLower(b) {
      forall i | 0 <= i < |a| ensures CharEqualsIgnoreCase(a[i], b[i]) {
        assert ToLower(a)[i] == ToLower(b)[i];
        CharEqualsIgnoreCaseIsLowerEquality(a[i], b[i]);
      }
    }
  }

  lemma ToLowerIdempotent(s: string)
    ensures ToLower(ToLower(s)) == ToLower(s)
  {
  }

  /** String.valueOf of a possibly null string, which is also what
      StringBuilder.append and String.format write for it. */
  function ValueOf(s: Option<string>): string {
    if s.Some? then s.value else "null"
  }

  // ---------------------------------------------------------------------
  // Joining

  /** String.join(sep, parts) */
  function Join(sep: string, parts: seq<string>): string
    decreases |parts|
  {
    if |parts| == 0 then ""
    else if |parts| == 1 then parts[0]
    else Join(sep, parts[..|parts| - 1]) + sep + parts[|parts| - 1]
  }

  /** Joining read from the front: the first part, the separator, the rest. */
  lemma {:induction false} JoinCons(sep: string, parts: seq<string>)
    requires |parts| >= 2
    ensures Join(sep, parts) == parts[0] + sep + Join(sep, parts[1..])
    decreases |parts|
  {
    if |parts| == 2 {
      assert parts[1..] == [parts[1]];
      assert parts[..1] == [parts[0]];
    } else {
      var init := parts[..|parts| - 1];
      JoinCons(sep, init);
      assert init[1..] == parts[1..][..|parts[1..]| - 1];
      assert init[0] == parts[0];
    }
  }

  /** The sum of the lengths of the parts. */
  function TotalLength(parts: seq<string>): nat
    decreases |parts|
  {
    if parts == [] then 0 else TotalLength(parts[..|parts| - 1]) + |parts[|parts| - 1]|
  }

  lemma {:induction false} JoinLength(sep: string, parts: seq<string>)
    requires parts != []
    ensures |Join(sep, parts)| == TotalLength(parts) + |sep| * (|parts| - 1)
    decreases |parts|
  {
    if |parts| == 1 {
      assert parts[..0] == [];
    } else {
      JoinLength(sep, parts[..|parts| - 1]);
    }
  }

  /** A character that occurs in neither the separator nor any part does not
      occur in the joined string. */
  lemma {:induction false} JoinExcludes(sep: string, parts: seq<string>, c: char)
    requires c !in sep
    requires forall k :: 0 <= k < |parts| ==> c !in parts[k]
    ensures c !in Join(sep, parts)
    decreases |parts|
  {
    if |parts| >= 2 {
      JoinExcludes(sep, parts[..|parts| - 1], c);
    }
  }

  /** The concatenation of all parts (the growing StringBuilder). */
  function Concat(parts: seq<string>): string
    decreases |parts|
  {
    if parts == [] then "" else Concat(parts[..|parts| - 1]) + parts[|parts| - 1]
  }

  // ---------------------------------------------------------------------
  // Counting and replacing characters

  function Count(s: string, c: char): nat
    decreases |s|
  {
    if s == [] then 0 else (if s[0] == c then 1 else 0) + Count(s[1..], c)
  }

  lemma {:induction false} CountAppend(a: string, b: string, c: char)
    ensures Count(a + b, c) == Count(a, c) + Count(b, c)
    decreases |a|
  {
    if a == [] {
      assert a + b == b;
    } else {
      assert (a + b)[1..] == a[1..] + b;
      CountAppend(a[1..], b, c);
    }
  }

  lemma {:induction false} CountConcat(parts: seq<string>, c: char)
    ensures Count(Concat(parts), c) == SumCounts(parts, c)
    decreases |parts|
  {
    if parts != [] {
      CountConcat(parts[..|parts| - 1], c);
      CountAppend(Concat(parts[..|parts| - 1]), parts[|parts| - 1], c);
    }
  }

  function SumCounts(parts: seq<string>, c: char): nat
    decreases |parts|
  {
    if parts == [] then 0 else SumCounts(parts[..|parts| - 1], c) + Count(parts[|parts| - 1], c)
  }

  lemma {:induction false} CountAbsent(s: string, c: char)
    ensures c !in s <==> Count(s, c) == 0
    decreases |s|
  {
    if s != [] {
      CountAbsent(s[1..], c);
      assert s == [s[0]] + s[1..];
    }
  }

  /** String.replace(c, rep) for a one-character target: every occurrence of
      c, left to right, is replaced by rep. */
  function ReplaceChar(s: string, c: char, rep: string): string
    decreases |s|
  {
    if s == [] then ""
    else (if s[0] == c then rep else [s[0]]) + ReplaceChar(s[1..], c, rep)
  }

  /** Replacing c by a string without c removes every c. */
  lemma {:induction false} ReplaceCharRemoves(s: string, c: char, rep: string)
    requires c !in rep
    ensures c !in ReplaceChar(s, c, rep)
    decreases |s|
  {
    if s != [] {
      ReplaceCharRemoves(s[1..], c, rep);
    }
  }

  /** Replacing never introduces a character that neither the input nor the
      replacement holds. */
  lemma {:induction false} ReplaceCharKeepsAbsent(s: string, c: char, rep: string, d: char)
    requires d !in s && d !in rep
    ensures d !in ReplaceChar(s, c, rep)
    decreases |s|
  {
    if s != [] {
      assert s == [s[0]] + s[1..];
      ReplaceCharKeepsAbsent(s[1..], c, rep, d);
    }
  }

  lemma {:induction false} ReplaceCharAbsent(s: string, c: char, rep: string)
    requires c !in s
    ensures ReplaceChar(s, c, rep) == s
    decreases |s|
  {
    if s != [] {
      assert s == [s[0]] + s[1..];
      ReplaceCharAbsent(s[1..], c, rep);
    }
  }

  /** String.replace(String.valueOf(c), "" + c + c): every c doubled. */
  function Double(s: string, c: char): string {
    ReplaceChar(s, c, [c, c])
  }

  /** The inverse of Double: every pair "cc" read back as one c. */
  function Undouble(s: string, c: char): string
    decreases |s|
  {
    if s == [] then ""
    else if |s| >= 2 && s[0] == c && s[1] == c then [c] + Undouble(s[2..], c)
    else [s[0]] + Undouble(s[1..], c)
  }

  lemma {:induction false} UndoubleDouble(s: string, c: char)
    ensures Undouble(Double(s, c), c) == s
    decreases |s|
  {
    if s != [] {
      UndoubleDouble(s[1..], c);
      var d := Double(s, c);
      if s[0] == c {
        assert d == [c, c] + Double(s[1..], c);
        assert d[2..] == Double(s[1..], c);
      } else {
        assert d == [s[0]] + Double(s[1..], c);
        assert d[1..] == Double(s[1..], c);
      }
    }
  }

  /** Doubling is injective. */
  lemma DoubleInjective(a: string, b: string, c: char)
    requires Double(a, c) == Double(b, c)
    ensures a == b
  {
    UndoubleDouble(a, c);
    UndoubleDouble(b, c);
  }

  lemma {:induction false} DoubleLength(s: string, c: char)
    ensures |Double(s, c)| == |s| + Count(s, c)
    decreases |s|
  {
    if s != [] {
      DoubleLength(s[1..], c);
    }
  }

  /** String.replace("" + a + b, rep): every occurrence of the two-character
      pattern ab, scanning left to right, is replaced by rep. */
  function ReplacePair(s: string, a: char, b: char, rep: string): string
    decreases |s|
  {
    if s == [] then ""
    else if |s| >= 2 && s[0] == a && s[1] == b then rep + ReplacePair(s[2..], a, b, rep)
    else [s[0]] + ReplacePair(s[1..], a, b, rep)
  }

  lemma {:induction false} ReplacePairKeepsAbsent(s: string, a: char, b: char, rep: string, d: char)
    requires d !in s && d !in rep
    ensures d !in ReplacePair(s, a, b, rep)
    decreases |s|
  {
    if s != [] {
      assert s[0] in s;
      if |s| >= 2 && s[0] == a && s[1] == b {
        assert forall x :: x in s[2..] ==> x in s;
        ReplacePairKeepsAbsent(s[2..], a, b, rep, d);
      } else {
        assert forall x :: x in s[1..] ==> x in s;
        ReplacePairKeepsAbsent(s[1..], a, b, rep, d);
      }
    }
  }

  lemma {:induction false} ReplacePairAbsent(s: string, a: char, b: char, rep: string)
    requires a !in s
    ensures ReplacePair(s, a, b, rep) == s
    decreases |s|
  {
    if s != [] {
      assert s == [s[0]] + s[1..];
      ReplacePairAbsent(s[1..], a, b, rep);
    }
  }

  // ---------------------------------------------------------------------
  // Padding

  function Repeat(c: char, n: nat): (r: string)
    ensures |r| == n && forall i :: 0 <= i < n ==> r[i] == c
  {
    seq(n, i => c)
  }

  /** String.format("%-" + w + "s", s) for w > 0: left-justified, padded on
      the right with spaces, never truncated. */
  function PadRight(s: string, w: nat): string {
    if |s| >= w then s else s + Repeat(' ', w - |s|)
  }

  lemma PadRightShape(s: string, w: nat)
    ensures |PadRight(s, w)| == if |s| >= w then |s| else w
    ensures PadRight(s, w)[..|s|] == s
    ensures forall i :: |s| <= i < |PadRight(s, w)| ==> PadRight(s, w)[i] == ' '
  {
  }

  // ---------------------------------------------------------------------
  // Decimal numbers ("" + n, String.valueOf(int), "%d")

  predicate IsDigit(c: char) {
    '0' <= c <= '9'
  }

  function DigitChar(d: nat): char
    requires d < 10
  {
    ('0' as int + d) as char
  }

  function NatToString(n: nat): string
    decreases n
  {
    if n < 10 then [DigitChar(n)] else NatToString(n / 10) + [DigitChar(n % 10)]
  }

  function IntToString(n: int): string {
    if n < 0 then "-" + NatToString(-n) else NatToString(n)
  }

  /** The number a string of decimal digits denotes. */
  function DigitsValue(s: string): nat
    decreases |s|
  {
    if s == [] then 0
    else
      var last := s[|s| - 1];
      var d := if IsDigit(last) then last as int - '0' as int else 0;
      DigitsValue(s[..|s| - 1]) * 10 + d
  }

  predicate AllDigits(s: string) {
    forall i :: 0 <= i < |s| ==> IsDigit(s[i])
  }

  /** The decimal text of n is a non-empty string of digits that reads back as n. */
  lemma {:induction false} NatToStringDigits(n: nat)
    ensures NatToString(n) != [] && AllDigits(NatToString(n))
    ensures DigitsValue(NatToString(n)) == n
    decreases n
  {
    if n >= 10 {
      NatToStringDigits(n / 10);
      var s := NatToString(n);
      assert s[..|s| - 1] == NatToString(n / 10);
    }
  }

  lemma NatToStringInjective(m: nat, n: nat)
    requires NatToString(m) == NatToString(n)
    ensures m == n
  {
    NatToStringDigits(m);
    NatToStringDigits(n);
  }

  // ---------------------------------------------------------------------
  // Splitting at a character (used to read generated text back)

  /** The text before the first c and the text after it, if c occurs. */
  function SplitAt(s: string, c: char): Option<(string, string)>
    decreases |s|
  {
    if s == [] then None
    else if s[0] == c then Some(([], s[1..]))
    else match SplitAt(s[1..], c)
      case None => None
      case Some(p) => Some(([s[0]] + p.0, p.1))
  }

  lemma {:induction false} SplitAtFirst(a: string, c: char, b: string)
    requires c !in a
    ensures SplitAt(a + [c] + b, c) == Some((a, b))
    decreases |a|
  {
    if a == [] {
      assert a + [c] + b == [c] + b;
    } else {
      assert (a + [c] + b)[1..] == a[1..] + [c] + b;
      assert a[0] in a;
      SplitAtFirst(a[1..], c, b);
      assert [a[0]] + a[1..] == a;
    }
  }

  /** Removes a known prefix. */
  function StripPrefix(s: string, prefix: string): Option<string> {
    if |prefix| <= |s| && s[..|prefix|] == prefix then Some(s[|prefix|..]) else None
  }

  lemma StripPrefixAppend(prefix: string, rest: string)
    ensures StripPrefix(prefix + rest, prefix) == Some(rest)
  {
    assert (prefix + rest)[..|prefix|] == prefix;
    assert (prefix + rest)[|prefix|..] == rest;
  }
}
