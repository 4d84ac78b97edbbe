/** The match page's `matchedAt`: the moment carried by the `t` query
    parameter when there is one, otherwise the current time. Times are
    integral milliseconds since the epoch. */
module MatchTime {
  import opened Optional
  import Decimal
  import Deck

  /** A JavaScript `Date`: a time value, or the invalid date. */
  datatype Moment = At(ms: int) | InvalidDate

  /** The largest magnitude a `Date` time value may have (TimeClip in
      section 21.4.1.31 of ECMA-262). */
  const MaxTimeValue: int := 8_640_000_000_000_000

  /** A decimal integer: digits, optionally after one sign. */
  predicate IsIntegerString(s: string)
  {
    Decimal.Parse(s).Some?
    || (2 <= |s| && (s[0] == '-' || s[0] == '+') && Decimal.Parse(s[1..]).Some?)
  }

  /** `Number(s)` on integer strings: an optional sign followed by decimal
      digits; the empty string is 0. `None` stands for NaN. */
  function NumberOf(s: string): (r: Option<int>)
    ensures r.Some? <==> |s| == 0 || IsIntegerString(s)
    ensures |s| == 0 ==> r == Some(0)
    ensures Decimal.Parse(s).Some? ==> r == Some(Decimal.Parse(s).value)
    ensures 2 <= |s| && s[0] == '-' && Decimal.Parse(s[1..]).Some? ==>
              r == Some(-(Decimal.Parse(s[1..]).value as int))
    ensures 2 <= |s| && s[0] == '+' && Decimal.Parse(s[1..]).Some? ==>
              r == Some(Decimal.Parse(s[1..]).value)
  {
    if |s| == 0 then Some(0)
    else if s[0] == '-' || s[0] == '+' then
      match Decimal.Parse(s[1..])
      case Some(n) =>
        var v: int := if s[0] == '-' then -(n as int) else n;
        Some(v)
      case None => None
    else
      match Decimal.Parse(s)
      case Some(n) => Some(n)
      case None => None
  }

  /** `new Date(x)`: a NaN or out-of-range time value makes the invalid
      date. */
  function DateOf(x: Option<int>): (m: Moment)
    ensures m.At? <==> x.Some? && -MaxTimeValue <= x.value <= MaxTimeValue
    ensures m.At? ==> m.ms == x.value
  {
    match x
    case Some(v) => if -MaxTimeValue <= v <= MaxTimeValue then At(v) else InvalidDate
    case None => InvalidDate
  }

  /** `t ? new Date(Number(t)) : new Date()` with the clock reading `now`.
      An absent or empty `t` means now; any other `t` decides the moment on
      its own, and the clock is not consulted. */
  function MatchedAt(t: Option<string>, now: int): (m: Moment)
    ensures t.None? || t == Some("") ==> m == At(now)
    ensures m.At? && t.Some? && t.value != "" ==> -MaxTimeValue <= m.ms <= MaxTimeValue
  {
    if t.Some? && t.value != "" then DateOf(NumberOf(t.value)) else At(now)
  }

  /** A non-empty `t` decides the moment without the clock. */
  lemma ClockIgnoredWhenTPresent(t: string, now: int, later: int)
    requires t != ""
    ensures MatchedAt(Some(t), now) == MatchedAt(Some(t), later)
    ensures MatchedAt(Some(t), now) == DateOf(NumberOf(t))
  {
  }

  /** The moment the swipe page writes into the match URL is the moment the
      match page shows, whenever the match page is opened. */
  lemma MatchReadsSwipeMoment(now: nat, later: int)
    requires now <= MaxTimeValue
    ensures MatchedAt(Some(Deck.MatchUrl(now)[|Deck.MatchPath|..]), later) == At(now)
  {
    var t := Deck.MatchUrl(now)[|Deck.MatchPath|..];
    assert Decimal.Parse(t) == Some(now);
    assert t[0] != '-' && t[0] != '+';
  }
}
