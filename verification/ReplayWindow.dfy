/**
  The 64-entry sliding replay window that control authentication keeps for every
  session (control_auth.go) and the Directory keeps for every channel and epoch
  (directory_v3.go). A 64-bit mask is modelled by its 64 bits, lowest first.
 */
module ReplayWindow {
  const WINDOW := 64

  type Mask = m: seq<bool> | |m| == WINDOW witness seq(WINDOW, _ => false)

  function One(): Mask {
    seq(WINDOW, i => i == 0)
  }

  function ShiftLeft(m: Mask, n: nat): Mask {
    seq(WINDOW, i => 0 <= i - n < WINDOW && m[i - n])
  }

  function Or(a: Mask, b: Mask): Mask {
    seq(WINDOW, i => 0 <= i < WINDOW && (a[i] || b[i]))
  }

  predicate Intersects(a: Mask, b: Mask) {
    exists i | 0 <= i < WINDOW :: a[i] && b[i]
  }

  datatype Window = Window(highest: nat, seen: Mask) {
    /** `c` is at most 63 behind the highest counter. */
    predicate Recent(c: nat) {
      c <= highest && highest - c < WINDOW
    }

    /** The mask says that `c` was accepted. */
    predicate Remembers(c: nat) {
      Recent(c) && seen[highest - c]
    }

    /** The mask is exactly the recent part of `accepted`, and `highest` its maximum. */
    ghost predicate Tracks(accepted: set<nat>) {
      && highest in accepted
      && (forall c :: c in accepted ==> c <= highest)
      && (forall c :: Recent(c) ==> (Remembers(c) <==> c in accepted))
    }
  }

  datatype Verdict = Verdict(window: Window, ok: bool)

  /** The window of a session that has accepted only `first`. */
  function Fresh(first: nat): (w: Window)
    ensures w.Tracks({first})
  {
    Window(first, One())
  }

  /** acceptReplayCounter; the subtractions are guarded, so unsigned arithmetic never wraps. */
  method AcceptReplayCounter(w: Window, counter: nat) returns (v: Verdict)
    ensures v == Accept(w, counter)
  {
    var highest, seen := w.highest, w.seen;
    if counter > highest {
      var delta := counter - highest;
      if delta >= WINDOW {
        seen := One();
      } else {
        seen := Or(ShiftLeft(seen, delta), One());
      }
      highest := counter;
      return Verdict(Window(highest, seen), true);
    }
    var delta := highest - counter;
    if delta >= WINDOW {
      return Verdict(w, false);
    }
    var mask := ShiftLeft(One(), delta);
    assert mask[delta];
    if Intersects(seen, mask) {
      return Verdict(w, false);
    }
    seen := Or(seen, mask);
    assert seen == w.seen[delta := true];
    return Verdict(Window(highest, seen), true);
  }

  /** What accepting a counter means, bit by bit. */
  function Accept(w: Window, counter: nat): (v: Verdict)
    ensures v.ok <==> counter > w.highest || (w.Recent(counter) && !w.Remembers(counter))
    ensures !v.ok ==> v.window == w
    ensures v.ok ==> v.window.highest == (if counter > w.highest then counter else w.highest)
    ensures v.ok ==> forall c :: v.window.Remembers(c) <==> v.window.Recent(c) && (c == counter || w.Remembers(c))
  {
    if counter >= w.highest + WINDOW then
      Verdict(Fresh(counter), true)
    else if counter > w.highest then
      Verdict(Window(counter, Or(ShiftLeft(w.seen, counter - w.highest), One())), true)
    else if w.Recent(counter) && !w.Remembers(counter) then
      Verdict(Window(w.highest, w.seen[w.highest - counter := true]), true)
    else
      Verdict(w, false)
  }

  /** One step of the window refines one step of the set of accepted counters. */
  lemma AcceptTracks(w: Window, counter: nat, accepted: set<nat>)
    requires w.Tracks(accepted)
    ensures var v := Accept(w, counter);
      && (v.ok ==> counter !in accepted && v.window.Tracks(accepted + {counter}))
      && (!v.ok ==> v.window.Tracks(accepted))
      && (counter > w.highest || w.Recent(counter) ==> (v.ok <==> counter !in accepted))
  {
    var v := Accept(w, counter);
    if v.ok {
      forall c: nat | v.window.Recent(c)
        ensures v.window.Remembers(c) <==> c in accepted + {counter}
      {
        assert w.Recent(c) || c > w.highest;
      }
    }
  }

  /** The life of one window: its verdict on every counter offered to it, in order. */
  function Verdicts(w: Window, counters: seq<nat>): (r: seq<bool>)
    ensures |r| == |counters|
    decreases counters
  {
    if counters == [] then [] else
      var v := Accept(w, counters[0]);
      [v.ok] + Verdicts(v.window, counters[1..])
  }

  /** The window after all of `counters`. */
  function After(w: Window, counters: seq<nat>): Window
    decreases counters
  {
    if counters == [] then w else After(Accept(w, counters[0]).window, counters[1..])
  }

  /** The counters of `counters` that were accepted, together with `before`. */
  ghost function Accepted(w: Window, counters: seq<nat>, before: set<nat>): set<nat>
    decreases counters
  {
    if counters == [] then before else
      var v := Accept(w, counters[0]);
      Accepted(v.window, counters[1..], if v.ok then before + {counters[0]} else before)
  }

  lemma {:induction false} LifeTracks(w: Window, counters: seq<nat>, before: set<nat>)
    requires w.Tracks(before)
    ensures After(w, counters).Tracks(Accepted(w, counters, before))
    ensures before <= Accepted(w, counters, before)
    decreases counters
  {
    if counters != [] {
      var v := Accept(w, counters[0]);
      AcceptTracks(w, counters[0], before);
      LifeTracks(v.window, counters[1..], if v.ok then before + {counters[0]} else before);
    }
  }

  /** A counter already in the accepted set is never accepted later in the same life. */
  lemma {:induction false} NeverAgain(w: Window, counters: seq<nat>, before: set<nat>, i: nat)
    requires w.Tracks(before) && i < |counters| && counters[i] in before
    ensures !Verdicts(w, counters)[i]
    decreases counters
  {
    AcceptTracks(w, counters[0], before);
    if i > 0 {
      var v := Accept(w, counters[0]);
      NeverAgain(v.window, counters[1..], if v.ok then before + {counters[0]} else before, i - 1);
    }
  }

  /** Within one window's life no counter is accepted twice, nor is one accepted before. */
  lemma {:induction false} AtMostOnce(w: Window, counters: seq<nat>, before: set<nat>, i: nat, j: nat)
    requires w.Tracks(before) && i < j < |counters| && counters[i] == counters[j]
    ensures !(Verdicts(w, counters)[i] && Verdicts(w, counters)[j])
    decreases counters
  {
    var v := Accept(w, counters[0]);
    AcceptTracks(w, counters[0], before);
    var now := if v.ok then before + {counters[0]} else before;
    if i > 0 {
      AtMostOnce(v.window, counters[1..], now, i - 1, j - 1);
    } else if v.ok {
      NeverAgain(v.window, counters[1..], now, j - 1);
    }
  }

  /**
    The exact verdict of a whole life: the last of `counters + [c]` is accepted if and
    only if `c` is not too old and was not accepted before.
   */
  lemma LifeVerdict(w: Window, counters: seq<nat>, before: set<nat>, c: nat)
    requires w.Tracks(before)
    ensures var now := After(w, counters);
      Accept(now, c).ok <==> (c > now.highest || now.Recent(c)) && c !in Accepted(w, counters, before)
  {
    LifeTracks(w, counters, before);
    AcceptTracks(After(w, counters), c, Accepted(w, counters, before));
  }
}
