/** Bracket scoring of a forward path: which of target and stop is hit first. */
module FirstHit {
  import opened Book
  import opened Numbers

  datatype Hit = NoHit | StopFirst | TargetFirst

  /** Favourable and adverse excursion of one bucket from price px. */
  function Fav(b: Bucket, px: real, up: bool): real
    requires px != 0.0
  {
    if up then b.high / px - 1.0 else 1.0 - b.low / px
  }

  function Adv(b: Bucket, px: real, up: bool): real
    requires px != 0.0
  {
    if up then 1.0 - b.low / px else b.high / px - 1.0
  }

  predicate Decides(b: Bucket, px: real, up: bool, target: real, stop: real)
    requires px != 0.0
  {
    Adv(b, px, up) >= stop || Fav(b, px, up) >= target
  }

  /** Index of the first bucket that crosses either threshold, or the length. */
  function FirstDecider(w: seq<Bucket>, px: real, up: bool, target: real, stop: real): (i: nat)
    requires px != 0.0
    ensures i <= |w|
    ensures i < |w| ==> Decides(w[i], px, up, target, stop)
    ensures forall j :: 0 <= j < i ==> !Decides(w[j], px, up, target, stop)
  {
    if w == [] then 0
    else if Decides(w[0], px, up, target, stop) then 0
    else 1 + FirstDecider(w[1..], px, up, target, stop)
  }

  /** The score; a bucket that crosses both thresholds counts as stop. */
  function Score(w: seq<Bucket>, px: real, up: bool, target: real, stop: real): Hit
    requires px != 0.0
  {
    var i := FirstDecider(w, px, up, target, stop);
    if i == |w| then NoHit
    else if Adv(w[i], px, up) >= stop then StopFirst
    else TargetFirst
  }

  function MaxFav(w: seq<Bucket>, px: real, up: bool): real
    requires px != 0.0
  {
    if w == [] then 0.0 else Max(MaxFav(w[..|w| - 1], px, up), Fav(w[|w| - 1], px, up))
  }

  function MaxAdv(w: seq<Bucket>, px: real, up: bool): real
    requires px != 0.0
  {
    if w == [] then 0.0 else Max(MaxAdv(w[..|w| - 1], px, up), Adv(w[|w| - 1], px, up))
  }

  lemma {:induction false} DeciderIs(w: seq<Bucket>, px: real, up: bool, target: real, stop: real, k: nat)
    requires px != 0.0 && k <= |w|
    requires k < |w| ==> Decides(w[k], px, up, target, stop)
    requires forall j :: 0 <= j < k ==> !Decides(w[j], px, up, target, stop)
    ensures FirstDecider(w, px, up, target, stop) == k
  {
    hide Fav, Adv, Decides;
    var i := FirstDecider(w, px, up, target, stop);
    if i < k { assert false; } else if k < i { assert false; }
  }

  /** Widening the stop never turns a target into a stop, nor moves it. */
  lemma {:induction false} WiderStopKeepsTarget(w: seq<Bucket>, px: real, up: bool, target: real, stop: real, wider: real)
    requires px != 0.0 && stop <= wider && Score(w, px, up, target, stop).TargetFirst?
    ensures Score(w, px, up, target, wider).TargetFirst?
    ensures FirstDecider(w, px, up, target, wider) == FirstDecider(w, px, up, target, stop)
  {
    hide Fav, Adv;
    var i := FirstDecider(w, px, up, target, stop);
    forall j | 0 <= j < i ensures !Decides(w[j], px, up, target, wider) {
      assert !Decides(w[j], px, up, target, stop);
    }
    DeciderIs(w, px, up, target, wider, i);
  }

  /** Widening the target never turns a stop into a target, nor moves it. */
  lemma {:induction false} WiderTargetKeepsStop(w: seq<Bucket>, px: real, up: bool, target: real, wider: real, stop: real)
    requires px != 0.0 && target <= wider && Score(w, px, up, target, stop).StopFirst?
    ensures Score(w, px, up, wider, stop).StopFirst?
    ensures FirstDecider(w, px, up, wider, stop) == FirstDecider(w, px, up, target, stop)
  {
    hide Fav, Adv;
    var i := FirstDecider(w, px, up, target, stop);
    forall j | 0 <= j < i ensures !Decides(w[j], px, up, wider, stop) {
      assert !Decides(w[j], px, up, target, stop);
    }
    DeciderIs(w, px, up, wider, stop, i);
  }

  /** A longer horizon never changes a score already decided. */
  lemma {:induction false} HorizonKeepsScore(w: seq<Bucket>, more: seq<Bucket>, px: real, up: bool, target: real, stop: real)
    requires px != 0.0 && !Score(w, px, up, target, stop).NoHit?
    ensures Score(w + more, px, up, target, stop) == Score(w, px, up, target, stop)
  {
    hide Fav, Adv;
    var i := FirstDecider(w, px, up, target, stop);
    assert (w + more)[i] == w[i];
    forall j | 0 <= j < i ensures !Decides((w + more)[j], px, up, target, stop) {
      assert (w + more)[j] == w[j];
    }
    DeciderIs(w + more, px, up, target, stop, i);
  }

  lemma {:induction false} MaxBounds(w: seq<Bucket>, px: real, up: bool, k: real)
    requires px != 0.0 && k > 0.0
    ensures MaxFav(w, px, up) < k <==> forall b <- w :: Fav(b, px, up) < k
    ensures MaxAdv(w, px, up) < k <==> forall b <- w :: Adv(b, px, up) < k
  {
    hide Fav, Adv;
    if w != [] {
      var last := w[|w| - 1];
      assert w == w[..|w| - 1] + [last];
      MaxBounds(w[..|w| - 1], px, up, k);
      assert forall b :: b in w <==> b in w[..|w| - 1] || b == last;
    }
  }

  /** "none" exactly when both reported excursions stay under their thresholds. */
  lemma {:induction false} NoHitIffUnder(w: seq<Bucket>, px: real, up: bool, target: real, stop: real)
    requires px != 0.0 && target > 0.0 && stop > 0.0
    ensures Score(w, px, up, target, stop).NoHit?
       <==> MaxFav(w, px, up) < target && MaxAdv(w, px, up) < stop
  {
    hide Fav, Adv, MaxFav, MaxAdv;
    MaxBounds(w, px, up, target);
    MaxBounds(w, px, up, stop);
    var i := FirstDecider(w, px, up, target, stop);
    if i < |w| {
      assert w[i] in w;
    } else {
      forall b | b in w ensures !Decides(b, px, up, target, stop) {
        var j :| 0 <= j < |w| && w[j] == b;
      }
    }
  }

  /** Fading swaps the two excursions, bucket by bucket and at the maximum. */
  lemma {:induction false} FadeSwaps(w: seq<Bucket>, px: real, up: bool)
    requires px != 0.0
    ensures MaxFav(w, px, !up) == MaxAdv(w, px, up)
    ensures MaxAdv(w, px, !up) == MaxFav(w, px, up)
  {
    if w != [] { FadeSwaps(w[..|w| - 1], px, up); }
  }

  /** With thresholds swapped, a burst and its fade decide on the same bucket, and
      whenever one scores "target" the other scores "stop". */
  lemma {:induction false} FadeIsDual(w: seq<Bucket>, px: real, up: bool, target: real, stop: real)
    requires px != 0.0
    ensures FirstDecider(w, px, !up, stop, target) == FirstDecider(w, px, up, target, stop)
    ensures Score(w, px, up, target, stop).TargetFirst? ==> Score(w, px, !up, stop, target).StopFirst?
    ensures Score(w, px, !up, stop, target).TargetFirst? ==> Score(w, px, up, target, stop).StopFirst?
    ensures Score(w, px, up, target, stop).NoHit? <==> Score(w, px, !up, stop, target).NoHit?
  {
    forall b ensures Fav(b, px, !up) == Adv(b, px, up) && Adv(b, px, !up) == Fav(b, px, up)
    {
    }
    var i := FirstDecider(w, px, up, target, stop);
    forall j | 0 <= j < i ensures !Decides(w[j], px, !up, stop, target) {
      assert !Decides(w[j], px, up, target, stop);
    }
    DeciderIs(w, px, !up, stop, target, i);
  }
}
