/** Values shared by every part of the model: optional and fallible results,
    the offer record of the local energy market, and small real-valued helpers. */
module Common {

  datatype Option<T> = None | Some(value: T)

  datatype Result<T, E> = Ok(value: T) | Err(error: E)

  /** Identifier of a community member (a meter). */
  type MemberId = string

  /** One buy or sell offer for one market session: `amount` in kWh,
      `value` in currency per kWh (the OfferDict record). */
  datatype Offer = Offer(origin: MemberId, amount: real, value: real)

  function Abs(x: real): (r: real)
    ensures r >= 0.0
    ensures r == x || r == -x
  {
    if x < 0.0 then -x else x
  }

  function Min(a: real, b: real): (r: real)
    ensures r <= a && r <= b
    ensures r == a || r == b
  {
    if b < a then b else a
  }

  function Max(a: real, b: real): (r: real)
    ensures r >= a && r >= b
    ensures r == a || r == b
  {
    if b > a then b else a
  }

  /** The prices of a list of offers, in list order. */
  function Values(s: seq<Offer>): (r: seq<real>)
    ensures |r| == |s|
    ensures forall i :: 0 <= i < |s| ==> r[i] == s[i].value
  {
    seq(|s|, i requires 0 <= i < |s| => s[i].value)
  }

  /** The smallest offer value (pandas `min` over the 'value' column). */
  function MinValue(s: seq<Offer>): (r: real)
    requires |s| > 0
    ensures forall i :: 0 <= i < |s| ==> r <= s[i].value
    ensures exists i :: 0 <= i < |s| && r == s[i].value
  {
    if |s| == 1 then s[0].value
    else
      var rest := MinValue(s[1..]);
      assert forall i :: 1 <= i < |s| ==> s[i] == s[1..][i - 1];
      Min(s[0].value, rest)
  }

  /** The largest offer value (pandas `max` over the 'value' column). */
  function MaxValue(s: seq<Offer>): (r: real)
    requires |s| > 0
    ensures forall i :: 0 <= i < |s| ==> r >= s[i].value
    ensures exists i :: 0 <= i < |s| && r == s[i].value
  {
    if |s| == 1 then s[0].value
    else
      var rest := MaxValue(s[1..]);
      assert forall i :: 1 <= i < |s| ==> s[i] == s[1..][i - 1];
      Max(s[0].value, rest)
  }

  /** Multiplying by a non-negative factor keeps an inequality. */
  lemma {:induction false} ScaleKeepsOrder(k: real, a: real, b: real)
    requires k >= 0.0 && a <= b
    ensures k * a <= k * b
  {
    assert k * b - k * a == k * (b - a);
  }
}
