/** The string operations the manifest builder calls: `toLowerCase`,
    `split(".")`, `join(".")`, lodash `_.trimEnd` with no character argument,
    and the leading-digit parse done by `parseInt` and `parseFloat`. */
module JsStrings {
  import opened JsValue

  predicate IsUpper(c: char) { 'A' <= c <= 'Z' }

  function LowerChar(c: char): char
  {
    if IsUpper(c) then (c as int + 32) as char else c
  }

  /** `toLowerCase`, on the ASCII letters. */
  function Lower(s: string): (r: string)
    ensures |r| == |s|
    ensures forall i :: 0 <= i < |s| ==> r[i] == LowerChar(s[i])
  {
    seq(|s|, i requires 0 <= i < |s| => LowerChar(s[i]))
  }

  lemma LowerOfLowerCase(s: string)
    requires forall i :: 0 <= i < |s| ==> !IsUpper(s[i])
    ensures Lower(s) == s
  {
  }

  lemma {:induction false} LowerIdempotent(s: string)
    ensures Lower(Lower(s)) == Lower(s)
  {
    LowerOfLowerCase(Lower(s));
  }

  /** `s.split(".")`: the pieces between dots, empty pieces included, so
      there is always at least one piece. */
  function Split(s: string): (parts: seq<string>)
    ensures |parts| > 0
    ensures forall k :: 0 <= k < |parts| ==> '.' !in parts[k]
    decreases |s|
  {
    if |s| == 0 then [""]
    else
      var tail := Split(s[1..]);
      if s[0] == '.' then [""] + tail
      else [[s[0]] + tail[0]] + tail[1..]
  }

  /** `parts.join(".")`. */
  function Join(parts: seq<string>): string
  {
    if |parts| == 0 then ""
    else if |parts| == 1 then parts[0]
    else parts[0] + "." + Join(parts[1..])
  }

  /** `join(".")` starts with the first piece, puts a separator straight
      after it when more pieces follow, and ends with the last piece. */
  lemma {:induction false} JoinPieces(parts: seq<string>)
    requires |parts| > 0
    ensures parts[0] <= Join(parts)
    ensures |parts| > 1 ==> |Join(parts)| > |parts[0]| && Join(parts)[|parts[0]|] == '.'
    ensures
      var last := parts[|parts| - 1];
      |last| <= |Join(parts)| && Join(parts)[|Join(parts)| - |last|..] == last
  {
    if |parts| > 1 {
      var rest := Join(parts[1..]);
      JoinPieces(parts[1..]);
      assert parts[1..][|parts[1..]| - 1] == parts[|parts| - 1];
      assert Join(parts) == parts[0] + "." + rest;
    }
  }

  /** Joining the pieces of a split gives the original string back. */
  lemma {:induction false} JoinSplit(s: string)
    ensures Join(Split(s)) == s
    decreases |s|
  {
    if |s| > 0 {
      var tail := Split(s[1..]);
      JoinSplit(s[1..]);
      if s[0] == '.' {
        assert Split(s)[1..] == tail;
      } else {
        var parts := Split(s);
        assert parts[0] == [s[0]] + tail[0];
        if |tail| == 1 {
          assert parts == [[s[0]] + tail[0]];
        } else {
          assert parts[1..] == tail[1..];
          assert Join(tail) == tail[0] + "." + Join(tail[1..]);
        }
        assert s == [s[0]] + s[1..];
      }
    }
  }

  /** Splitting a join of dot-free pieces gives the pieces back. */
  lemma {:induction false} SplitJoin(parts: seq<string>)
    requires |parts| > 0
    requires forall k :: 0 <= k < |parts| ==> '.' !in parts[k]
    ensures Split(Join(parts)) == parts
  {
    if |parts| == 1 {
      SplitDotFree(parts[0]);
    } else {
      SplitJoin(parts[1..]);
      SplitConcat(parts[0], Join(parts[1..]));
      SplitDotFree(parts[0]);
      assert parts == [parts[0]] + parts[1..];
    }
  }

  /** A dot-free string is one piece. */
  lemma {:induction false} SplitDotFree(s: string)
    requires '.' !in s
    ensures Split(s) == [s]
    decreases |s|
  {
    if |s| > 0 {
      assert '.' !in s[1..] by {
        forall i | 0 <= i < |s[1..]| ensures s[1..][i] != '.' { assert s[1..][i] == s[i + 1]; }
      }
      SplitDotFree(s[1..]);
      assert s == [s[0]] + s[1..];
    }
  }

  /** Splitting at an explicit dot splits the two sides independently. */
  lemma {:induction false} SplitConcat(a: string, b: string)
    requires '.' !in a
    ensures Split(a + "." + b) == Split(a) + Split(b)
    decreases |a|
  {
    if |a| == 0 {
      assert a + "." + b == "." + b;
      assert ("." + b)[1..] == b;
    } else {
      assert '.' !in a[1..] by {
        forall i | 0 <= i < |a[1..]| ensures a[1..][i] != '.' { assert a[1..][i] == a[i + 1]; }
      }
      SplitConcat(a[1..], b);
      var s := a + "." + b;
      assert s[0] == a[0] && s[1..] == a[1..] + "." + b;
      SplitDotFree(a);
      SplitDotFree(a[1..]);
      assert a == [a[0]] + a[1..];
    }
  }

  /** The non-empty pieces of a split, in order: what
      `path.split(".").filter(p => !!p)` returns. */
  function NonEmpty(parts: seq<string>): (r: seq<string>)
    ensures forall k :: 0 <= k < |r| ==> r[k] != ""
    ensures |r| <= |parts|
  {
    if |parts| == 0 then []
    else (if parts[0] == "" then [] else [parts[0]]) + NonEmpty(parts[1..])
  }

  lemma {:induction false} NonEmptyConcat(p: seq<string>, q: seq<string>)
    ensures NonEmpty(p + q) == NonEmpty(p) + NonEmpty(q)
  {
    if |p| > 0 {
      assert (p + q)[1..] == p[1..] + q;
      NonEmptyConcat(p[1..], q);
    } else {
      assert p + q == q;
    }
  }

  lemma {:induction false} NonEmptyKeepsAll(parts: seq<string>)
    requires forall k :: 0 <= k < |parts| ==> parts[k] != ""
    ensures NonEmpty(parts) == parts
  {
    if |parts| > 0 {
      NonEmptyKeepsAll(parts[1..]);
    }
  }

  /** The non-empty dot-separated segments of a path. */
  function Segments(path: string): (r: seq<string>)
    ensures forall k :: 0 <= k < |r| ==> r[k] != "" && '.' !in r[k]
  {
    var parts := Split(path);
    NonEmptySubset(parts);
    NonEmpty(parts)
  }

  lemma {:induction false} NonEmptySubset(parts: seq<string>)
    ensures forall k :: 0 <= k < |NonEmpty(parts)| ==> NonEmpty(parts)[k] in parts
  {
    if |parts| > 0 {
      NonEmptySubset(parts[1..]);
      var head := if parts[0] == "" then [] else [parts[0]];
      assert NonEmpty(parts) == head + NonEmpty(parts[1..]);
      forall k | 0 <= k < |NonEmpty(parts)| ensures NonEmpty(parts)[k] in parts {
        if k >= |head| {
          assert NonEmpty(parts)[k] == NonEmpty(parts[1..])[k - |head|];
          assert NonEmpty(parts)[k] in parts[1..];
        }
      }
    }
  }

  /** The segments of `a + "." + b` are those of `a` followed by those of
      `b`, when `a` has no dot of its own. */
  lemma SegmentsConcat(a: string, b: string)
    requires '.' !in a
    ensures Segments(a + "." + b) == Segments(a) + Segments(b)
  {
    SplitConcat(a, b);
    NonEmptyConcat(Split(a), Split(b));
  }

  /** A non-empty dot-free string is a single segment. */
  lemma SegmentsOfWord(w: string)
    requires w != "" && '.' !in w
    ensures Segments(w) == [w]
  {
    SplitDotFree(w);
  }

  /** The characters JavaScript's `\s` matches, which lodash strips. */
  predicate IsWhitespace(c: char)
  {
    c == ' ' || c == '\t' || c == '\n' || c == '\r' || c == '\U{000B}' || c == '\U{000C}'
    || c == '\U{00A0}' || c == '\U{1680}' || ('\U{2000}' <= c <= '\U{200A}')
    || c == '\U{2028}' || c == '\U{2029}' || c == '\U{202F}' || c == '\U{205F}'
    || c == '\U{3000}' || c == '\U{FEFF}'
  }

  /** lodash `_.trimEnd(s)` with no character argument: drops trailing
      whitespace and nothing else. */
  function TrimEnd(s: string): (r: string)
    ensures r <= s
    ensures r == [] || !IsWhitespace(r[|r| - 1])
    ensures forall i :: |r| <= i < |s| ==> IsWhitespace(s[i])
  {
    if |s| > 0 && IsWhitespace(s[|s| - 1]) then TrimEnd(s[..|s| - 1]) else s
  }

  lemma TrimEndNoop(s: string)
    requires s == [] || !IsWhitespace(s[|s| - 1])
    ensures TrimEnd(s) == s
  {
  }

  predicate IsDigit(c: char) { '0' <= c <= '9' }

  /** The longest prefix of `s` made of decimal digits. */
  function LeadingDigits(s: string): (r: string)
    ensures r <= s
    ensures forall i :: 0 <= i < |r| ==> IsDigit(r[i])
    ensures |r| < |s| ==> !IsDigit(s[|r|])
  {
    if |s| > 0 && IsDigit(s[0]) then [s[0]] + LeadingDigits(s[1..]) else []
  }

  /** The number a string of digits denotes. */
  function DigitsValue(ds: string): nat
  {
    if |ds| == 0 then 0
    else 10 * DigitsValue(ds[..|ds| - 1]) + DigitValue(ds[|ds| - 1])
  }

  function DigitValue(c: char): nat
  {
    if IsDigit(c) then (c as int) - ('0' as int) else 0
  }

  /** `parseInt(s)`: the leading run of digits as a number, or `None` (NaN)
      when `s` does not start with a digit. */
  function ParseInt(s: string): (r: Option<nat>)
    ensures r.None? <==> (s == [] || !IsDigit(s[0]))
  {
    var ds := LeadingDigits(s);
    if ds == [] then None else Some(DigitsValue(ds))
  }

  /** `parseFloat(s)` on the integer part: the leading run of digits, or
      NaN when there is none. */
  function ParseFloat(s: string): (v: Value)
    ensures v.NaN? || v.Num?
    ensures v.NaN? <==> ParseInt(s).None?
  {
    match ParseInt(s)
    case None => NaN
    case Some(n) => Num(n)
  }

  lemma {:induction false} LeadingDigitsOfDigits(ds: string)
    requires forall i :: 0 <= i < |ds| ==> IsDigit(ds[i])
    ensures LeadingDigits(ds) == ds
  {
    if |ds| > 0 {
      LeadingDigitsOfDigits(ds[1..]);
      assert ds == [ds[0]] + ds[1..];
    }
  }

  lemma {:induction false} DigitsValueOfNat(n: nat)
    ensures DigitsValue(NatToString(n)) == n
    decreases n
  {
    var s := NatToString(n);
    var d := [(('0' as int) + n % 10) as char];
    if n >= 10 {
      DigitsValueOfNat(n / 10);
      assert s[..|s| - 1] == NatToString(n / 10);
      assert s[|s| - 1] == d[0];
    } else {
      assert s == d;
      assert s[..0] == [];
    }
  }

  /** Parsing the decimal text of an index gives the index back: the index
      segments a path is built from are read back exactly. */
  lemma ParseIntOfNat(n: nat)
    ensures ParseInt(NatToString(n)) == Some(n)
  {
    LeadingDigitsOfDigits(NatToString(n));
    DigitsValueOfNat(n);
  }

  /** A non-negative number, coerced to text by string concatenation,
      parses back to itself. */
  lemma ToJsStringOfIndex(n: nat)
    ensures ParseInt(ToJsString(Num(n))) == Some(n)
  {
    ParseIntOfNat(n);
  }
}
