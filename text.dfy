/** The few string operations of the Swift standard library the core relies on:
    `String(Int)`, `joined(separator:)` and `split(separator:)`. */
module Text {
  import opened Wrappers

  predicate IsDigit(ch: char) { '0' <= ch <= '9' }

  function DigitChar(d: nat): (ch: char)
    requires d < 10
    ensures IsDigit(ch) && ch as int - '0' as int == d
  {
    ('0' as int + d) as char
  }

  /** Decimal notation of a natural number, most significant digit first. */
  function NatToDecimal(n: nat): (s: string)
    ensures |s| >= 1
    ensures forall i :: 0 <= i < |s| ==> IsDigit(s[i])
    decreases n
  {
    if n < 10 then [DigitChar(n)] else NatToDecimal(n / 10) + [DigitChar(n % 10)]
  }

  /** Swift's `String(n)` for an `Int`: a minus sign for negatives, then the digits. */
  function IntToDecimal(n: int): string {
    if n < 0 then "-" + NatToDecimal(-n) else NatToDecimal(n)
  }

  function DigitValue(ch: char): nat
    requires IsDigit(ch)
  {
    ch as int - '0' as int
  }

  function ParseNat(s: string): nat
    requires forall i :: 0 <= i < |s| ==> IsDigit(s[i])
  {
    if s == [] then 0 else ParseNat(s[..|s| - 1]) * 10 + DigitValue(s[|s| - 1])
  }

  /** Reads back what `IntToDecimal` writes; `None` for anything else. */
  function ParseInt(s: string): Option<int> {
    if |s| >= 2 && s[0] == '-' && forall i :: 1 <= i < |s| ==> IsDigit(s[i]) then
      Some(-(ParseNat(s[1..]) as int))
    else if |s| >= 1 && forall i :: 0 <= i < |s| ==> IsDigit(s[i]) then
      Some(ParseNat(s))
    else
      None
  }

  lemma {:induction false} NatRoundTrip(n: nat)
    ensures ParseNat(NatToDecimal(n)) == n
    decreases n
  {
    if n >= 10 {
      var s := NatToDecimal(n);
      assert s[..|s| - 1] == NatToDecimal(n / 10);
      NatRoundTrip(n / 10);
    }
  }

  /** `String(n)` loses nothing: the integer can be read back. */
  lemma DecimalRoundTrip(n: int)
    ensures ParseInt(IntToDecimal(n)) == Some(n)
  {
    NatRoundTrip(if n < 0 then -n else n);
    if n < 0 {
      var s := IntToDecimal(n);
      assert s[1..] == NatToDecimal(-n);
      assert s[0] == '-';
    } else {
      assert IntToDecimal(n)[0] != '-';
    }
  }

  /** Swift's `joined(separator:)` with a one-character separator. */
  function Join(xs: seq<string>, sep: char): string {
    if xs == [] then ""
    else if |xs| == 1 then xs[0]
    else Join(xs[..|xs| - 1], sep) + [sep] + xs[|xs| - 1]
  }

  /** All pieces between separators, empty ones included (`components(separatedBy:)`). */
  function SplitAll(s: string, sep: char): (pieces: seq<string>)
    ensures |pieces| >= 1
    ensures forall k :: 0 <= k < |pieces| ==> sep !in pieces[k]
  {
    if s == [] then [""]
    else
      var init := SplitAll(s[..|s| - 1], sep);
      if s[|s| - 1] == sep then init + [""]
      else init[..|init| - 1] + [init[|init| - 1] + [s[|s| - 1]]]
  }

  function NonEmpty(pieces: seq<string>): (r: seq<string>)
    ensures forall k :: 0 <= k < |r| ==> r[k] != "" && r[k] in pieces
  {
    if pieces == [] then []
    else if pieces[|pieces| - 1] == "" then NonEmpty(pieces[..|pieces| - 1])
    else NonEmpty(pieces[..|pieces| - 1]) + [pieces[|pieces| - 1]]
  }

  /** Swift's `split(separator:)`, which omits empty pieces. */
  function Split(s: string, sep: char): (pieces: seq<string>)
    ensures forall k :: 0 <= k < |pieces| ==> pieces[k] != "" && sep !in pieces[k]
  {
    NonEmpty(SplitAll(s, sep))
  }

  /** `s.split(separator: sep).last`. */
  function LastPiece(s: string, sep: char): Option<string> {
    var pieces := Split(s, sep);
    if pieces == [] then None else Some(pieces[|pieces| - 1])
  }

  /** Splitting a string that ends in a piece free of `sep` ends in that piece. */
  lemma {:induction false} SplitAllAppendPiece(a: string, b: string, sep: char)
    requires sep !in b
    ensures SplitAll(a + [sep] + b, sep) == SplitAll(a, sep) + [b]
    decreases |b|
  {
    var s := a + [sep] + b;
    if b == [] {
      assert s[..|s| - 1] == a;
    } else {
      var b' := b[..|b| - 1];
      assert s[..|s| - 1] == a + [sep] + b';
      SplitAllAppendPiece(a, b', sep);
      assert b' + [b[|b| - 1]] == b;
    }
  }

  /** Joining, then splitting at every separator, gives the pieces back when no
      piece contains the separator. */
  lemma {:induction false} SplitJoin(xs: seq<string>, sep: char)
    requires xs != []
    requires forall k :: 0 <= k < |xs| ==> sep !in xs[k]
    ensures SplitAll(Join(xs, sep), sep) == xs
    decreases |xs|
  {
    if |xs| == 1 {
      SplitAllNoSep(xs[0], sep);
    } else {
      var init, last := xs[..|xs| - 1], xs[|xs| - 1];
      assert forall k :: 0 <= k < |init| ==> init[k] == xs[k];
      SplitJoin(init, sep);
      assert Join(xs, sep) == Join(init, sep) + [sep] + last;
      SplitAllAppendPiece(Join(init, sep), last, sep);
      assert init + [last] == xs;
    }
  }

  lemma {:induction false} SplitAllNoSep(b: string, sep: char)
    requires sep !in b
    ensures SplitAll(b, sep) == [b]
    decreases |b|
  {
    if b != [] {
      var b' := b[..|b| - 1];
      SplitAllNoSep(b', sep);
      assert b' + [b[|b| - 1]] == b;
    }
  }

  /** The last piece is missing exactly when the string is nothing but separators. */
  lemma {:induction false} LastPieceNoneIff(s: string, sep: char)
    ensures LastPiece(s, sep).None? <==> forall i :: 0 <= i < |s| ==> s[i] == sep
    decreases |s|
  {
    if s != [] {
      var init := s[..|s| - 1];
      LastPieceNoneIff(init, sep);
      var pieces := SplitAll(init, sep);
      if s[|s| - 1] == sep {
        assert NonEmpty(pieces + [""]) == NonEmpty(pieces);
        assert (forall i :: 0 <= i < |s| ==> s[i] == sep) <==> (forall i :: 0 <= i < |init| ==> init[i] == sep) by {
          forall i | 0 <= i < |init| ensures init[i] == s[i] { }
        }
      } else {
        var last := pieces[|pieces| - 1] + [s[|s| - 1]];
        assert SplitAll(s, sep) == pieces[..|pieces| - 1] + [last];
        assert Split(s, sep) == NonEmpty(pieces[..|pieces| - 1]) + [last];
      }
    }
  }
}
