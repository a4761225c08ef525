/** The transaction-history page's in-browser filter over one fetched page of rows (type
    dropdown plus a search box that is either a number or a piece of a type name) and its
    "Previous" button. */
module TransactionHistoryPage {
  import opened Common

  /** A row as the page sees it: its `type` text and numeric `amount`. */
  datatype Row = Row(kind: string, amount: int)

  /** `Number(q)` for the forms this model knows: an optional sign, then digits with an optional
      fraction, or a fraction alone. A number with a non-zero fraction is `Fraction`, which no
      integer amount equals. */
  datatype Num = NaN | Whole(value: int) | Fraction

  predicate IsDigit(c: char) { '0' <= c <= '9' }

  predicate AllDigits(s: string) {
    forall k :: 0 <= k < |s| ==> IsDigit(s[k])
  }

  predicate AllZeros(s: string) {
    forall k :: 0 <= k < |s| ==> s[k] == '0'
  }

  /** Decimal value of a digit string. */
  function DigitsValue(s: string): nat
    requires AllDigits(s)
  {
    if s == [] then 0 else DigitsValue(s[..|s| - 1]) * 10 + (s[|s| - 1] as int - '0' as int)
  }

  /** Position of the first `.`, or `|s|` when there is none. */
  function DotAt(s: string): (i: nat)
    ensures i <= |s|
    ensures i < |s| ==> s[i] == '.'
    ensures forall k :: 0 <= k < i ==> s[k] != '.'
  {
    if s == [] then 0 else if s[0] == '.' then 0 else 1 + DotAt(s[1..])
  }

  /** The unsigned part: `digits`, `digits.`, `digits.digits` or `.digits`. */
  function UnsignedOf(s: string): (n: Num)
    ensures n.Whole? ==> n.value >= 0
  {
    var i := DotAt(s);
    var whole := s[..i];
    var frac := if i < |s| then s[i + 1..] else [];
    if !AllDigits(whole) || !AllDigits(frac) || (whole == [] && frac == []) then NaN
    else if AllZeros(frac) then Whole(DigitsValue(whole))
    else Fraction
  }

  /** An unsigned text without digits is no number: its whole and fraction parts would both
      have to be empty digit strings. */
  lemma DigitlessIsNaN(s: string)
    ensures (forall k :: 0 <= k < |s| ==> !IsDigit(s[k])) ==> UnsignedOf(s) == NaN
  {
    if forall k :: 0 <= k < |s| ==> !IsDigit(s[k]) {
      var i := DotAt(s);
      var whole := s[..i];
      var frac := if i < |s| then s[i + 1..] else [];
      if whole != [] {
        assert whole[0] == s[0];
        assert !AllDigits(whole);
      }
      if frac != [] {
        assert frac[0] == s[i + 1];
        assert !AllDigits(frac);
      }
    }
  }

  /** `Number(q)` on the search text. A text without any digit is no number, so the page falls
      back to the type search for it. */
  function NumberOf(q: string): (n: Num)
    ensures q == [] ==> n == NaN
    ensures (forall k :: 0 <= k < |q| ==> !IsDigit(q[k])) ==> n == NaN
  {
    if q == [] then NaN
    else
      assert forall k :: 1 <= k < |q| ==> q[1..][k - 1] == q[k];
      DigitlessIsNaN(q);
      DigitlessIsNaN(q[1..]);
      if q[0] == '-' then
        match UnsignedOf(q[1..])
        case Whole(v) => Whole(-v)
        case other => other
      else if q[0] == '+' then UnsignedOf(q[1..])
      else UnsignedOf(q)
  }

  /** The filter's test for one row; `q` is the trimmed, lowercased search. */
  predicate Keep(r: Row, typeFilter: string, q: string) {
    if typeFilter != "all" && r.kind != typeFilter then false
    else if q == [] then true
    else match NumberOf(q)
      case NaN => Contains(ToLower(r.kind), q)
      case Whole(v) => r.amount == v
      case Fraction => false
  }

  function KeepQ(typeFilter: string, q: string): Row -> bool {
    (r: Row) => Keep(r, typeFilter, q)
  }

  /** The search box after `trim().toLowerCase()`. */
  function Query(search: string): string {
    ToLower(Trim(search))
  }

  /** `filteredTransactions`; `None` stands for a fetched value that is not an array. */
  function Filtered(raw: Option<seq<Row>>, typeFilter: string, search: string): (out: seq<Row>)
    ensures raw.None? ==> out == []
    ensures raw.Some? ==> |out| <= |raw.value|
    ensures raw.Some? ==> forall r :: r in out <==> r in raw.value && Keep(r, typeFilter, Query(search))
    ensures raw.Some? ==>
      var ix := FilterPositions(raw.value, KeepQ(typeFilter, Query(search)));
      && |ix| == |out|
      && (forall k :: 0 <= k < |out| ==> ix[k] < |raw.value| && out[k] == raw.value[ix[k]])
      && (forall k, l :: 0 <= k < l < |ix| ==> ix[k] < ix[l])
  {
    if raw.None? then []
    else
      FilterPositionsCorrect(raw.value, KeepQ(typeFilter, Query(search)));
      Filter(raw.value, KeepQ(typeFilter, Query(search)))
  }

  /** With a type selected, every row of another type is dropped. */
  lemma TypeFilterDrops(raw: seq<Row>, typeFilter: string, search: string)
    requires typeFilter != "all"
    ensures forall r :: r in Filtered(Some(raw), typeFilter, search) ==> r.kind == typeFilter
  {
  }

  /** A blank or white-space search keeps every row that passes the type filter. */
  lemma BlankSearchKeepsAll(raw: seq<Row>, typeFilter: string, search: string)
    requires AllWhitespace(search)
    ensures forall r :: r in raw && (typeFilter == "all" || r.kind == typeFilter) ==>
                          r in Filtered(Some(raw), typeFilter, search)
  {
    TrimEmptyIff(search);
  }

  /** A numeric search keeps exactly the rows whose amount equals it; any other search keeps
      the rows whose lowercased type contains it. */
  lemma SearchModes(raw: seq<Row>, search: string, r: Row)
    requires Query(search) != [] && r in raw
    ensures NumberOf(Query(search)).Whole? ==>
              (r in Filtered(Some(raw), "all", search) <==> r.amount == NumberOf(Query(search)).value)
    ensures NumberOf(Query(search)).NaN? ==>
              (r in Filtered(Some(raw), "all", search) <==> Contains(ToLower(r.kind), Query(search)))
  {
  }

  lemma {:induction false} DigitChar(d: nat)
    requires d < 10
    ensures Digit(d) as int - '0' as int == d
  {
    if d == 0 {} else if d == 1 {} else if d == 2 {} else if d == 3 {} else if d == 4 {}
    else if d == 5 {} else if d == 6 {} else if d == 7 {} else if d == 8 {} else {}
  }

  lemma {:induction false} DecimalDigitsValue(v: nat)
    ensures AllDigits(NatToString(v)) && DigitsValue(NatToString(v)) == v
    decreases v
  {
    var s := NatToString(v);
    if v < 10 {
      assert s[..0] == [];
      DigitChar(v);
    } else {
      DecimalDigitsValue(v / 10);
      assert s[..|s| - 1] == NatToString(v / 10);
      DigitChar(v % 10);
    }
  }

  /** `Number` reads back every integer as its decimal text shows it, with or without a sign:
      the amount the transaction list prints is found by searching for it. */
  lemma DecimalRoundTrip(v: nat)
    ensures NumberOf(NatToString(v)) == Whole(v)
    ensures NumberOf("-" + NatToString(v)) == Whole(-(v as int))
    ensures NumberOf("+" + NatToString(v)) == Whole(v)
  {
    var s := NatToString(v);
    DecimalDigitsValue(v);
    assert DotAt(s) == |s|;
    assert s[..|s|] == s;
    assert ("-" + s)[1..] == s && ("+" + s)[1..] == s;
  }

  /** Examples of the number forms: "-1" is the usage amount, "25.0" is 25, "1.5" matches no
      row, and "share" is a type search. */
  lemma NumberForms()
    ensures NumberOf("-1") == Whole(-1)
    ensures NumberOf("25.0") == Whole(25)
    ensures NumberOf("1.5") == Fraction
    ensures NumberOf("share") == NaN
  {
    assert "-1"[1..] == "1";
    assert DotAt("1") == 1;
    assert "1"[..1] == "1";
    assert DigitsValue("1") == 1 by { assert "1"[..0] == []; }
    assert DotAt("25.0") == 2;
    assert "25.0"[..2] == "25" && "25.0"[3..] == "0";
    assert DigitsValue("25") == 25 by {
      assert "25"[..1] == "2";
      assert "2"[..0] == [];
    }
    assert DotAt("1.5") == 1;
    assert "1.5"[2..] == "5";
    assert !IsDigit("share"[0]);
  }

  /** "Previous": `Math.max(1, p - 1)`. */
  function PrevPage(p: int): (r: int)
    ensures r >= 1
    ensures p >= 2 ==> r == p - 1
    ensures p < 2 ==> r == 1
  {
    Max(1, p - 1)
  }
}
