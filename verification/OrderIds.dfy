/** The identifiers that the order manager makes up: `QF-<milliseconds>-<sequence>`, and for paper
    trading `PAPER-<id>` and `PAPER-TRD-<id>`. */
module OrderIds {

  const DIGITS: string := "0123456789"

  predicate IsDigit(c: char) { c in DIGITS }

  function DigitValue(c: char): nat {
    if '0' <= c <= '9' then (c as int) - ('0' as int) else 0
  }

  function Decimal(n: nat): string {
    if n < 10 then [DIGITS[n]] else Decimal(n / 10) + [DIGITS[n % 10]]
  }

  function MakeId(ts: nat, seqno: nat): string {
    "QF-" + Decimal(ts) + "-" + Decimal(seqno)
  }

  /** The number spelled by the digits at the end of a string. */
  function Trailing(s: string): nat {
    if s == [] || !IsDigit(s[|s| - 1]) then 0
    else 10 * Trailing(s[..|s| - 1]) + DigitValue(s[|s| - 1])
  }

  lemma DigitRoundTrip(d: nat)
    requires d < 10
    ensures IsDigit(DIGITS[d]) && DigitValue(DIGITS[d]) == d
  {
  }

  /** Reading back what was printed, whatever non-digit stands before it. */
  lemma {:induction false} TrailingOfDecimal(prefix: string, n: nat)
    requires prefix == [] || !IsDigit(prefix[|prefix| - 1])
    ensures Trailing(prefix + Decimal(n)) == n
    decreases n
  {
    var s := prefix + Decimal(n);
    if n < 10 {
      assert s[..|s| - 1] == prefix && s[|s| - 1] == DIGITS[n];
      DigitRoundTrip(n);
      assert Trailing(prefix) == 0;
    } else {
      assert s[..|s| - 1] == prefix + Decimal(n / 10) && s[|s| - 1] == DIGITS[n % 10];
      DigitRoundTrip(n % 10);
      TrailingOfDecimal(prefix, n / 10);
    }
  }

  /** The sequence number can be read off an order id, so ids of different sequence numbers differ
      whatever the clock says; and the same through the paper-trading prefixes. */
  lemma TrailingOfId(prefix: string, ts: nat, seqno: nat)
    ensures Trailing(prefix + MakeId(ts, seqno)) == seqno
  {
    var p := prefix + ("QF-" + Decimal(ts) + "-");
    assert prefix + MakeId(ts, seqno) == p + Decimal(seqno);
    assert p[|p| - 1] == '-';
    TrailingOfDecimal(p, seqno);
  }

  lemma IdNotEmpty(ts: nat, seqno: nat)
    ensures MakeId(ts, seqno) != ""
  {
  }

  /** A number is printed with decimal digits and without leading zeros. */
  lemma {:induction false} DecimalIsPlain(n: nat)
    ensures Decimal(n) != [] && forall i :: 0 <= i < |Decimal(n)| ==> '0' <= Decimal(n)[i] <= '9'
    ensures n > 0 ==> Decimal(n)[0] != '0'
    decreases n
  {
    if n >= 10 {
      DecimalIsPlain(n / 10);
    }
  }

  /** What stands before the first dash. */
  function UntilDash(s: string): string {
    if s == [] || s[0] == '-' then [] else [s[0]] + UntilDash(s[1..])
  }

  lemma {:induction false} UntilDashStops(s: string, rest: string)
    requires forall i :: 0 <= i < |s| ==> s[i] != '-'
    ensures UntilDash(s + "-" + rest) == s
    decreases |s|
  {
    var t := s + "-" + rest;
    if s != [] {
      assert t[1..] == s[1..] + "-" + rest;
      UntilDashStops(s[1..], rest);
    }
  }

  /** The milliseconds, between "QF-" and the next dash, and the sequence number, behind that, can both be read
      off an order id. */
  lemma IdReadsBack(ts: nat, seqno: nat)
    ensures var id := MakeId(ts, seqno);
      && |id| > 3 && id[..3] == "QF-"
      && Trailing(UntilDash(id[3..])) == ts
      && Trailing(id) == seqno
  {
    hide Decimal, Trailing, UntilDash;
    var id := MakeId(ts, seqno);
    assert id[3..] == Decimal(ts) + "-" + Decimal(seqno);
    DecimalIsPlain(ts);
    UntilDashStops(Decimal(ts), Decimal(seqno));
    assert "" + Decimal(ts) == Decimal(ts) && "" + id == id;
    TrailingOfDecimal("", ts);
    TrailingOfId("", ts, seqno);
  }

  lemma IdsAreUnique(ts: nat, seqno: nat, ts': nat, seqno': nat)
    requires MakeId(ts, seqno) == MakeId(ts', seqno')
    ensures ts == ts' && seqno == seqno'
  {
    IdReadsBack(ts, seqno);
    IdReadsBack(ts', seqno');
  }

  lemma IdExample()
    ensures MakeId(1605, 42) == "QF-1605-42"
  {
    assert Decimal(1) == "1" && Decimal(4) == "4";
    assert Decimal(16) == Decimal(1) + "6" && Decimal(160) == Decimal(16) + "0";
    assert Decimal(1605) == Decimal(160) + "5" && Decimal(42) == Decimal(4) + "2";
    hide Decimal;
    assert Decimal(1605) == "1605" && Decimal(42) == "42";
  }

  /** What a fill does with an exchange id it does not know: it drops six characters. */
  function StripPaper(exchangeId: string): string {
    if |exchangeId| > 6 then exchangeId[6..] else exchangeId
  }

  /** It drops them exactly from what is longer than that. */
  lemma StripPaperDropsSix(s: string)
    ensures |s| <= 6 ==> StripPaper(s) == s
    ensures |s| > 6 ==> |StripPaper(s)| == |s| - 6 && s[..6] + StripPaper(s) == s
  {
  }

  /** That recovers the order id from the exchange id that paper trading makes up. */
  lemma StripPaperRoundTrip(ts: nat, seqno: nat)
    ensures StripPaper("PAPER-" + MakeId(ts, seqno)) == MakeId(ts, seqno)
  {
  }
}
