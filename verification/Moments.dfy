/** Instants are whole microseconds; the database keeps whole seconds only. */
module Options {
  datatype Option<+T> = None | Some(value: T) {
    function Or(other: Option<T>): Option<T> {
      if Some? then this else other
    }

    function GetOr(default: T): T {
      if Some? then value else default
    }
  }
}

module Moments {
  import opened Options

  const SECOND := 1_000_000
  const DAY := 86_400 * SECOND

  /** The whole second an instant is written as: ISO text with no fraction. */
  function Iso(t: int): int {
    t - t % SECOND
  }

  predicate Whole(t: int) {
    t % SECOND == 0
  }

  function IsoOption(t: Option<int>): Option<int> {
    if t.Some? then Some(Iso(t.value)) else None
  }

  function Earlier(left: Option<int>, right: Option<int>): Option<int> {
    if left.None? then right
    else if right.None? then left
    else if left.value <= right.value then left else right
  }

  function Later(left: Option<int>, right: Option<int>): Option<int> {
    if left.None? then right
    else if right.None? then left
    else if left.value >= right.value then left else right
  }

  /** Full days covering a time span; no days for a span under one second. */
  function CeilDays(delta: int): nat {
    var seconds := if delta < 0 then 0 else delta / SECOND;
    if seconds == 0 then 0 else (seconds + 86_399) / 86_400
  }

  /** Writing an instant never moves it forward, keeps order, and changes nothing the second time. */
  lemma IsoOrder(s: int, t: int)
    ensures Iso(t) <= t < Iso(t) + SECOND
    ensures Whole(Iso(t)) && (Whole(t) <==> Iso(t) == t)
    ensures s <= t ==> Iso(s) <= Iso(t)
    ensures Whole(s) && s <= t ==> s <= Iso(t)
  {
  }
}
