/** A match as a sequence of events: frames, the deferred re-centre, "play
    again" and key events, in the order the single-threaded page runs them. */
module Session {
  import opened Rules

  datatype Event =
    | Tick(roll: DieRoll)
    | Recentre
    | PlayAgain
    | KeyDown(code: int)
    | KeyUp(code: int)

  function Apply(c: Canvas, s: State, e: Event): State
  {
    match e
    case Tick(roll) => Frame(c, s, roll)
    case Recentre => Recentered(c, s)
    case PlayAgain => Restarted(s)
    case KeyDown(code) => KeyPressed(s, code)
    case KeyUp(code) => KeyReleased(s, code)
  }

  function Run(c: Canvas, s: State, es: seq<Event>): State
    decreases |es|
  {
    if es == [] then s else Run(c, Apply(c, s, es[0]), es[1..])
  }

  /** Every event keeps the match invariant. */
  lemma ApplyPreservesInv(c: Canvas, s: State, e: Event)
    requires Inv(c, s)
    ensures Inv(c, Apply(c, s, e))
  {
    match e
    case Tick(roll) => FramePreservesInv(c, s, roll);
    case _ =>
  }

  /** From the start of a match, whatever happens, the paddles stay between
      the walls, the ball stays between the walls, and the match is over only
      when a side has 7 points. */
  lemma {:induction false} RunPreservesInv(c: Canvas, s: State, es: seq<Event>)
    requires Inv(c, s)
    ensures Inv(c, Run(c, s, es))
    decreases |es|
  {
    if es != [] {
      ApplyPreservesInv(c, s, es[0]);
      RunPreservesInv(c, Apply(c, s, es[0]), es[1..]);
    }
  }

  lemma MatchInvariant(c: Canvas, es: seq<Event>)
    requires c.Valid()
    ensures Inv(c, Run(c, Initial(c), es))
  {
    InitialSatisfiesInv(c);
    RunPreservesInv(c, Initial(c), es);
  }

  /** The events between two re-centres: neither the callback nor a restart. */
  predicate InPlay(es: seq<Event>)
  {
    forall i :: 0 <= i < |es| ==> !es[i].Recentre? && !es[i].PlayAgain?
  }

  function Points(s: State): nat { s.leftScore + s.rightScore }

  /** No double counting: until the ball is re-centred (or the match is
      restarted), scores never decrease, at most one point is awarded in all,
      none once one is pending, and a pending point stays pending. */
  lemma {:induction false} AtMostOnePointPerServe(c: Canvas, s: State, es: seq<Event>)
    requires InPlay(es)
    ensures var r := Run(c, s, es);
      && s.leftScore <= r.leftScore && s.rightScore <= r.rightScore
      && Points(r) <= Points(s) + (if s.ball.resetting then 0 else 1)
      && (s.ball.resetting ==> r.ball.resetting)
    decreases |es|
  {
    if es != [] {
      var s' := Apply(c, s, es[0]);
      assert InPlay(es[1..]) by {
        forall i | 0 <= i < |es[1..]| ensures !es[1..][i].Recentre? && !es[1..][i].PlayAgain? {
          assert es[1..][i] == es[i + 1];
        }
      }
      assert !es[0].Recentre? && !es[0].PlayAgain?;
      if es[0].Tick? {
        FrameScoring(c, s, es[0].roll);
      }
      assert s.leftScore <= s'.leftScore && s.rightScore <= s'.rightScore;
      assert Points(s') <= Points(s) + (if s.ball.resetting then 0 else 1);
      assert Points(s') != Points(s) ==> s'.ball.resetting;
      assert s.ball.resetting ==> s'.ball.resetting;
      AtMostOnePointPerServe(c, s', es[1..]);
    }
  }
}
