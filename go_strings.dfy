/**
 * The parts of Go's `strings`, `bytes` and `strconv` packages that the
 * toolkit relies on, stated over Dafny sequences.
 *
 * A Go string is a sequence of bytes. Byte content is `Bytes`; a Go string
 * that is used as a name or a message is a Dafny `string` whose every
 * character is one byte (code 0..255), so `StringOf` and `BytesOf` convert
 * between the two without loss.
 */
module GoStrings {
  import opened Wrappers

  type byte = b: int | 0 <= b < 256
  type Bytes = seq<byte>

  /** Go's `string(b)` for a byte slice `b`. */
  function StringOf(bs: Bytes): (s: string)
    ensures |s| == |bs|
    ensures forall i :: 0 <= i < |bs| ==> s[i] as int == bs[i]
  {
    seq(|bs|, i requires 0 <= i < |bs| => bs[i] as char)
  }

  /** True of a Dafny string that stands for a Go string. */
  predicate IsByteString(s: string) {
    forall i :: 0 <= i < |s| ==> s[i] as int < 256
  }

  /** Go's `[]byte(s)` for a string `s`. */
  function BytesOf(s: string): (bs: Bytes)
    requires IsByteString(s)
    ensures |bs| == |s|
    ensures forall i :: 0 <= i < |s| ==> bs[i] == s[i] as int
  {
    seq(|s|, i requires 0 <= i < |s| => s[i] as int)
  }

  lemma StringOfBytesOf(s: string)
    requires IsByteString(s)
    ensures StringOf(BytesOf(s)) == s
  {
  }

  lemma BytesOfStringOf(bs: Bytes)
    ensures IsByteString(StringOf(bs)) && BytesOf(StringOf(bs)) == bs
  {
  }

  /** `strings.HasPrefix` / `bytes.HasPrefix`. */
  predicate HasPrefix<T(==)>(s: seq<T>, prefix: seq<T>) {
    |prefix| <= |s| && s[..|prefix|] == prefix
  }

  /** `strings.Contains`: `sub` occurs somewhere in `s`. */
  predicate Contains<T(==)>(s: seq<T>, sub: seq<T>) {
    exists i :: 0 <= i <= |s| && HasPrefix(s[i..], sub)
  }

  /**
   * `strings.ToLower` on the ASCII range: 'A'..'Z' become 'a'..'z' and every
   * other character is left as it is.
   */
  function LowerChar(c: char): (r: char)
    ensures 'A' <= c <= 'Z' ==> r as int == c as int + 32
    ensures !('A' <= c <= 'Z') ==> r == c
  {
    if 'A' <= c <= 'Z' then (c as int + 32) as char else c
  }

  function ToLower(s: string): (r: string)
    ensures |r| == |s|
    ensures forall i :: 0 <= i < |s| ==> r[i] == LowerChar(s[i])
  {
    seq(|s|, i requires 0 <= i < |s| => LowerChar(s[i]))
  }

  /** Case-insensitive equality as the toolkit spells it: `ToLower(a) == ToLower(b)`. */
  predicate EqualFold(a: string, b: string) {
    ToLower(a) == ToLower(b)
  }

  lemma EqualFoldIsEquivalence(a: string, b: string, c: string)
    ensures EqualFold(a, a)
    ensures EqualFold(a, b) == EqualFold(b, a)
    ensures EqualFold(a, b) && EqualFold(b, c) ==> EqualFold(a, c)
  {
  }

  // ------------------------------------------------------------------
  // strings.NewReplacer(old1, new1, old2, new2, ...).Replace(s), and
  // strings.Replace(s, old, new, -1), for non-empty patterns.
  // ------------------------------------------------------------------

  /** An (old, new) pair handed to a replacer. */
  datatype Replacement = Replacement(pattern: string, text: string)

  predicate NonEmptyOlds(pairs: seq<Replacement>) {
    forall k :: 0 <= k < |pairs| ==> pairs[k].pattern != ""
  }

  /**
   * The pair the replacer uses at the start of `s`: the first one, in
   * argument order, whose pattern is a prefix of `s`.
   */
  function PairAt(s: string, pairs: seq<Replacement>): (k: Option<nat>)
    ensures k.Some? ==> k.value < |pairs| && HasPrefix(s, pairs[k.value].pattern)
    ensures k.Some? ==> forall j :: 0 <= j < k.value ==> !HasPrefix(s, pairs[j].pattern)
    ensures k.None? ==> forall j :: 0 <= j < |pairs| ==> !HasPrefix(s, pairs[j].pattern)
  {
    PairFrom(s, pairs, 0)
  }

  function PairFrom(s: string, pairs: seq<Replacement>, from: nat): (k: Option<nat>)
    requires from <= |pairs|
    ensures k.Some? ==> from <= k.value < |pairs| && HasPrefix(s, pairs[k.value].pattern)
    ensures k.Some? ==> forall j :: from <= j < k.value ==> !HasPrefix(s, pairs[j].pattern)
    ensures k.None? ==> forall j :: from <= j < |pairs| ==> !HasPrefix(s, pairs[j].pattern)
    decreases |pairs| - from
  {
    if from == |pairs| then None
    else if HasPrefix(s, pairs[from].pattern) then Some(from)
    else PairFrom(s, pairs, from + 1)
  }

  /**
   * One left-to-right pass: at each position the chosen pair's replacement text is
   * emitted and the pattern skipped; otherwise the character is copied.
   * Emitted text is never scanned again.
   */
  function Replace(s: string, pairs: seq<Replacement>): (r: string)
    requires NonEmptyOlds(pairs)
    decreases |s|
  {
    if s == [] then []
    else match PairAt(s, pairs)
      case Some(k) => pairs[k].text + Replace(s[|pairs[k].pattern|..], pairs)
      case None => [s[0]] + Replace(s[1..], pairs)
  }

  /** Text in which no pattern starts anywhere is left unchanged. */
  lemma {:induction false} ReplaceNoOccurrence(s: string, pairs: seq<Replacement>)
    requires NonEmptyOlds(pairs)
    requires forall i :: 0 <= i < |s| ==> PairAt(s[i..], pairs) == None
    ensures Replace(s, pairs) == s
  {
    if s != [] {
      assert PairAt(s[0..], pairs) == None;
      assert s[0..] == s;
      forall i | 0 <= i < |s[1..]| ensures PairAt(s[1..][i..], pairs) == None {
        assert s[1..][i..] == s[i + 1..];
      }
      ReplaceNoOccurrence(s[1..], pairs);
    }
  }

  /** A prefix at none of whose positions a pattern starts is copied as it is, and the pass goes on after it. */
  lemma {:induction false} ReplaceCopiesPrefix(a: string, rest: string, pairs: seq<Replacement>)
    requires NonEmptyOlds(pairs)
    requires forall i :: 0 <= i < |a| ==> PairAt((a + rest)[i..], pairs) == None
    ensures Replace(a + rest, pairs) == a + Replace(rest, pairs)
  {
    if a != [] {
      assert a + rest == [a[0]] + (a[1..] + rest);
      assert (a + rest)[0..] == a + rest;
      ReplaceCopies(a[0], a[1..] + rest, pairs);
      forall i | 0 <= i < |a[1..]| ensures PairAt((a[1..] + rest)[i..], pairs) == None {
        assert (a[1..] + rest)[i..] == (a + rest)[i + 1..];
      }
      ReplaceCopiesPrefix(a[1..], rest, pairs);
      assert a + Replace(rest, pairs) == [a[0]] + (a[1..] + Replace(rest, pairs));
    }
  }

  /** A character at which no pattern starts is copied, and the pass goes on after it. */
  lemma ReplaceCopies(c: char, s: string, pairs: seq<Replacement>)
    requires NonEmptyOlds(pairs)
    requires PairAt([c] + s, pairs) == None
    ensures Replace([c] + s, pairs) == [c] + Replace(s, pairs)
  {
    assert ([c] + s)[1..] == s;
  }

  /**
   * The chosen pattern is replaced by its replacement text and the pass goes on
   * right after the pattern: the replacement text is never rescanned.
   */
  lemma ReplaceSubstitutes(k: nat, s: string, pairs: seq<Replacement>)
    requires NonEmptyOlds(pairs)
    requires k < |pairs| && PairAt(pairs[k].pattern + s, pairs) == Some(k)
    ensures Replace(pairs[k].pattern + s, pairs) == pairs[k].text + Replace(s, pairs)
  {
    assert (pairs[k].pattern + s)[|pairs[k].pattern|..] == s;
  }

  /** Text free of the first character of every pattern passes through unchanged. */
  lemma {:induction false} ReplaceSkipsLiteral(lit: string, s: string, c: char, pairs: seq<Replacement>)
    requires NonEmptyOlds(pairs)
    requires forall k :: 0 <= k < |pairs| ==> pairs[k].pattern[0] == c
    requires forall i :: 0 <= i < |lit| ==> lit[i] != c
    ensures Replace(lit + s, pairs) == lit + Replace(s, pairs)
  {
    if lit != [] {
      var t := lit + s;
      assert t[0] == lit[0];
      assert PairAt(t, pairs).None?;
      assert t[1..] == lit[1..] + s;
      ReplaceSkipsLiteral(lit[1..], s, c, pairs);
      calc {
        Replace(t, pairs);
        [t[0]] + Replace(t[1..], pairs);
        [lit[0]] + (lit[1..] + Replace(s, pairs));
        { assert [lit[0]] + lit[1..] == lit; }
        lit + Replace(s, pairs);
      }
    } else {
      assert lit + s == s;
    }
  }

  // ------------------------------------------------------------------
  // strings.Join and strings.Split with a one-character separator.
  // ------------------------------------------------------------------

  /** `strings.Join(parts, [sep])`. */
  function Join(parts: seq<string>, sep: char): (r: string)
  {
    if |parts| == 0 then ""
    else if |parts| == 1 then parts[0]
    else parts[0] + [sep] + Join(parts[1..], sep)
  }

  /** Number of occurrences of `c` in `s`. */
  function Count(s: string, c: char): nat {
    if s == [] then 0 else (if s[0] == c then 1 else 0) + Count(s[1..], c)
  }

  lemma {:induction false} CountAppend(a: string, b: string, c: char)
    ensures Count(a + b, c) == Count(a, c) + Count(b, c)
  {
    if a != [] {
      assert (a + b)[0] == a[0];
      assert (a + b)[1..] == a[1..] + b;
      CountAppend(a[1..], b, c);
    } else {
      assert a + b == b;
    }
  }

  /** `Join` puts exactly one separator between neighbours and none elsewhere. */
  lemma {:induction false} JoinLength(parts: seq<string>, sep: char)
    requires forall k :: 0 <= k < |parts| ==> Count(parts[k], sep) == 0
    ensures |parts| > 0 ==> Count(Join(parts, sep), sep) == |parts| - 1
    ensures |parts| == 0 ==> Join(parts, sep) == ""
  {
    if |parts| == 1 {
    } else if |parts| > 1 {
      JoinLength(parts[1..], sep);
      CountAppend(parts[0], [sep], sep);
      CountAppend(parts[0] + [sep], Join(parts[1..], sep), sep);
    }
  }

  /**
   * `strings.Split(s, [sep])`: the pieces between separators. As in Go, the
   * empty string splits into one empty piece.
   */
  function Split(s: string, sep: char): (r: seq<string>)
    ensures |r| >= 1
    decreases |s|
  {
    SplitFrom(s, sep, "")
  }

  /** Splitting `s` when `acc` is the piece collected so far. */
  function SplitFrom(s: string, sep: char, acc: string): (r: seq<string>)
    ensures |r| >= 1
    decreases |s|
  {
    if s == [] then [acc]
    else if s[0] == sep then [acc] + SplitFrom(s[1..], sep, "")
    else SplitFrom(s[1..], sep, acc + [s[0]])
  }

  lemma {:induction false} SplitFromPiece(piece: string, rest: string, sep: char, acc: string)
    requires Count(piece, sep) == 0
    ensures SplitFrom(piece + rest, sep, acc) == SplitFrom(rest, sep, acc + piece)
  {
    if piece != [] {
      assert piece[0] != sep && Count(piece[1..], sep) == 0;
      assert (piece + rest)[0] == piece[0];
      assert (piece + rest)[1..] == piece[1..] + rest;
      SplitFromPiece(piece[1..], rest, sep, acc + [piece[0]]);
      assert acc + [piece[0]] + piece[1..] == acc + piece;
    } else {
      assert piece + rest == rest && acc + piece == acc;
    }
  }

  /** Splitting a join gives back the parts, when there is at least one part and none holds the separator. */
  lemma {:induction false} SplitJoin(parts: seq<string>, sep: char)
    requires |parts| > 0
    requires forall k :: 0 <= k < |parts| ==> Count(parts[k], sep) == 0
    ensures Split(Join(parts, sep), sep) == parts
  {
    SplitJoinFrom(parts, sep);
  }

  lemma {:induction false} SplitJoinFrom(parts: seq<string>, sep: char)
    requires |parts| > 0
    requires forall k :: 0 <= k < |parts| ==> Count(parts[k], sep) == 0
    ensures SplitFrom(Join(parts, sep), sep, "") == parts
  {
    if |parts| == 1 {
      SplitFromPiece(parts[0], "", sep, "");
      assert parts[0] + "" == parts[0];
      assert "" + parts[0] == parts[0];
    } else {
      var rest := Join(parts[1..], sep);
      assert Join(parts, sep) == parts[0] + ([sep] + rest);
      SplitFromPiece(parts[0], [sep] + rest, sep, "");
      assert ([sep] + rest)[1..] == rest;
      assert "" + parts[0] == parts[0];
      SplitJoinFrom(parts[1..], sep);
      assert parts == [parts[0]] + parts[1..];
    }
  }

  /** The index of the first occurrence of `c` in `s`. */
  function IndexOf(s: string, c: char): (r: Option<nat>)
    ensures r.Some? ==> r.value < |s| && s[r.value] == c && c !in s[..r.value]
    ensures r.None? ==> c !in s
  {
    if s == [] then None
    else if s[0] == c then Some(0)
    else match IndexOf(s[1..], c)
      case Some(k) =>
        assert s[..k + 1] == [s[0]] + s[1..][..k];
        Some(k + 1)
      case None => None
  }

  /** A character occurs in `s` exactly when `Count` finds it. */
  lemma {:induction false} CountZero(s: string, c: char)
    ensures Count(s, c) == 0 <==> c !in s
  {
    if s != [] {
      CountZero(s[1..], c);
      assert s == [s[0]] + s[1..];
    }
  }

  /** `strings.Contains(s, [c])` is membership of `c`. */
  lemma ContainsChar(s: string, c: char)
    ensures Contains(s, [c]) <==> c in s
  {
    if c in s {
      var i :| 0 <= i < |s| && s[i] == c;
      assert HasPrefix(s[i..], [c]);
    }
    if Contains(s, [c]) {
      var i :| 0 <= i <= |s| && HasPrefix(s[i..], [c]);
      assert s[i] == c;
    }
  }

  /** The first piece of a split is everything before the first separator. */
  lemma SplitFirst(s: string, sep: char)
    ensures Split(s, sep)[0] == if sep in s then s[..IndexOf(s, sep).value] else s
  {
    var k := IndexOf(s, sep);
    if k.Some? {
      var piece := s[..k.value];
      CountZero(piece, sep);
      assert s == piece + ([sep] + s[k.value + 1..]);
      SplitFromPiece(piece, [sep] + s[k.value + 1..], sep, "");
      assert "" + piece == piece;
    } else {
      CountZero(s, sep);
      SplitFromPiece(s, "", sep, "");
      assert s + "" == s && "" + s == s;
    }
  }

  lemma SplitEmpty(sep: char)
    ensures Split("", sep) == [""]
  {
  }

  // ------------------------------------------------------------------
  // strconv.Itoa and strconv.Atoi for non-negative numbers.
  // ------------------------------------------------------------------

  predicate IsDigit(c: char) { '0' <= c <= '9' }

  function Digit(d: nat): (c: char)
    requires d < 10
    ensures IsDigit(c) && c as int - '0' as int == d
  {
    ('0' as int + d) as char
  }

  /** `strconv.Itoa(n)` for n >= 0: decimal digits, no sign, no leading zeros. */
  function Decimal(n: nat): (s: string)
    ensures |s| >= 1
    ensures forall i :: 0 <= i < |s| ==> IsDigit(s[i])
    ensures s[0] == '0' ==> n == 0 && s == "0"
  {
    if n < 10 then [Digit(n)] else Decimal(n / 10) + [Digit(n % 10)]
  }

  /** The value of a string of decimal digits; `None` for the empty string or any other character. */
  function ParseDecimal(s: string): (r: Option<nat>)
    ensures r.Some? <==> s != [] && forall i :: 0 <= i < |s| ==> IsDigit(s[i])
  {
    if s == [] then None
    else if !IsDigit(s[|s| - 1]) then None
    else if |s| == 1 then Some(s[0] as int - '0' as int)
    else match ParseDecimal(s[..|s| - 1])
      case None => None
      case Some(v) => Some(v * 10 + (s[|s| - 1] as int - '0' as int))
  }

  lemma {:induction false} ParseDecimalOfDecimal(n: nat)
    ensures ParseDecimal(Decimal(n)) == Some(n)
  {
    if n >= 10 {
      var s := Decimal(n);
      assert s[..|s| - 1] == Decimal(n / 10);
      ParseDecimalOfDecimal(n / 10);
    }
  }

  /** A decimal rendering never holds a comma. */
  lemma DecimalHasNoComma(n: nat)
    ensures Count(Decimal(n), ',') == 0
  {
    DigitsHaveNoComma(Decimal(n));
  }

  lemma {:induction false} DigitsHaveNoComma(s: string)
    requires forall i :: 0 <= i < |s| ==> IsDigit(s[i])
    ensures Count(s, ',') == 0
  {
    if s != [] {
      DigitsHaveNoComma(s[1..]);
    }
  }
}
