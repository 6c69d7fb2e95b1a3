/** What a caller may rely on, over whole runs of calls and answers. */
module CallTheorems {
  import opened Wrappers
  import opened CallMatching

  // ----- Runs

  lemma {:induction false} OrderlyRun(s: System, steps: seq<Step>)
    requires Orderly(s) && IsRun(s, steps)
    ensures Orderly(After(s, steps))
    decreases |steps|
  {
    if steps != [] {
      OrderlyStep(s, steps[0]);
      OrderlyRun(Next(s, steps[0]), steps[1..]);
    }
  }

  lemma {:induction false} TidyRun(s: System, steps: seq<Step>)
    requires Tidy(s) && IsTidyRun(s, steps)
    ensures IsRun(s, steps) && Tidy(After(s, steps))
    decreases |steps|
  {
    if steps != [] {
      TidyStep(s, steps[0]);
      TidyRun(Next(s, steps[0]), steps[1..]);
    }
  }

  lemma TidyStep(s: System, step: Step)
    requires Tidy(s) && Enabled(s, step) && KeepsIdsApart(s, step)
    ensures Tidy(Next(s, step))
  {
    OrderlyStep(s, step);
    ApartStep(s, step);
    SentOnceStep(s, step);
    AnsweredOnceStep(s, step);
    OnlyAnswersStep(s, step);
  }

  lemma {:induction false} IdsStay(s: System, steps: seq<Step>)
    requires IsRun(s, steps)
    ensures |After(s, steps).calls| == |s.calls|
    ensures forall c :: 0 <= c < |s.calls| ==> After(s, steps).calls[c].id == s.calls[c].id
    decreases |steps|
  {
    if steps != [] {
      IdsStay(Next(s, steps[0]), steps[1..]);
    }
  }

  // ----- Main results

  /** Whatever the ids, a call returns the first message with its id after it subscribed, and skips none. */
  lemma ReturnsFirstMatch(ids: seq<Option<Id>>, steps: seq<Step>, c: nat)
    requires IsRun(Start(ids), steps) && c < |After(Start(ids), steps).calls|
    requires After(Start(ids), steps).calls[c].phase.Returned?
    ensures c < |ids|
    ensures var s := After(Start(ids), steps);
            var Returned(since, at) := s.calls[c].phase;
            && since <= at < |s.log| && ids[c].Some? && s.log[at].id == ids[c]
            && (forall j :: since <= j < at ==> s.log[j].id != ids[c])
  {
    OrderlyRun(Start(ids), steps);
    IdsStay(Start(ids), steps);
    assert ReadInOrder(After(Start(ids), steps).calls[c], After(Start(ids), steps).log);
  }

  /** When ids are kept apart, a call that returns returns the answer to its own request. */
  lemma ReturnsItsAnswer(ids: seq<Option<Id>>, steps: seq<Step>, c: nat)
    requires IsTidyRun(Start(ids), steps) && c < |ids|
    ensures IsRun(Start(ids), steps) && |After(Start(ids), steps).calls| == |ids|
    ensures var s := After(Start(ids), steps);
            var phase := s.calls[c].phase;
            phase.Returned? ==> phase.at < |s.log| && s.log[phase.at] == Message(ids[c], Answer(c))
  {
    TidyRun(Start(ids), steps);
    IdsStay(Start(ids), steps);
    var s := After(Start(ids), steps);
    assert ReadInOrder(s.calls[c], s.log) && OnlyItsAnswer(s.calls[c], c, s.log);
  }

  /** Subscribing before sending: no answer lies behind the cursor of a waiting call. */
  lemma AnswerIsAhead(s: System, c: nat, j: nat)
    requires Tidy(s) && c < |s.calls| && s.calls[c].phase.Waiting? && IsAnswer(s, j, c)
    ensures s.calls[c].phase.cursor <= j
    ensures forall i :: s.calls[c].phase.since <= i < j ==> s.log[i].id != s.calls[c].id
  {
    assert ReadInOrder(s.calls[c], s.log) && OnlyItsAnswer(s.calls[c], c, s.log);
    forall i: nat | s.calls[c].phase.since <= i < j ensures s.log[i].id != s.calls[c].id {
      assert IsAnswer(s, i, c) ==> i == j;
    }
  }

  ghost function Reads(c: nat, n: nat): seq<Step> {
    if n == 0 then [] else [Recv(c)] + Reads(c, n - 1)
  }

  /** A call that has not fallen behind returns its answer by reading on, with nobody's help. */
  lemma {:induction false} FinishesByReading(s: System, c: nat, j: nat)
    requires Tidy(s) && c < |s.calls| && s.calls[c].phase.Waiting? && IsAnswer(s, j, c)
    requires |s.log| - s.calls[c].phase.cursor <= CAPACITY
    ensures s.calls[c].phase.cursor <= j
    ensures var steps := Reads(c, j - s.calls[c].phase.cursor + 1);
            IsRun(s, steps) && After(s, steps) == InPhase(s, c, Returned(s.calls[c].phase.since, j))
    decreases j - s.calls[c].phase.cursor
  {
    AnswerIsAhead(s, c, j);
    var Waiting(since, cursor) := s.calls[c].phase;
    var t := Next(s, Recv(c));
    assert Reads(c, j - cursor + 1)[1..] == Reads(c, j - cursor);
    TidyStep(s, Recv(c));
    if cursor < j {
      FinishesByReading(t, c, j);
      assert InPhase(t, c, Returned(since, j)) == InPhase(s, c, Returned(since, j));
    }
  }

  // ----- No request is lost

  predicate IsLossless(step: Step) {
    step != Write(false) && step != WriterStops
  }

  /** Every waiting call's request is on its way, or its answer is. */
  ghost predicate NoneLost(s: System) {
    forall c: nat :: c < |s.calls| && s.calls[c].phase.Waiting? ==>
      Outstanding(s, c) || exists j: nat :: IsAnswer(s, j, c)
  }

  lemma NoneLostStep(s: System, step: Step)
    requires NoneLost(s) && Enabled(s, step) && IsLossless(step) && s.writerUp
    ensures NoneLost(Next(s, step)) && Next(s, step).writerUp
  {
    var t := Next(s, step);
    forall c: nat | c < |t.calls| && t.calls[c].phase.Waiting?
      ensures Outstanding(t, c) || exists j: nat :: IsAnswer(t, j, c)
    {
      if step == Send(c) {
        assert t.queued[|s.queued|] == c;
      } else if step == Respond(c) {
        assert IsAnswer(t, |s.log|, c);
      } else if Outstanding(s, c) {
        if step.Write? && c in s.queued && c != s.queued[0] {
          assert c in s.queued[1..];
        }
        if step.Send? && c in s.queued {
          assert c in t.queued;
        }
      } else {
        var j: nat :| IsAnswer(s, j, c);
        assert IsAnswer(t, j, c);
      }
    }
  }

  lemma {:induction false} NoneLostRun(s: System, steps: seq<Step>)
    requires NoneLost(s) && s.writerUp && IsRun(s, steps)
    requires forall i :: 0 <= i < |steps| ==> IsLossless(steps[i])
    ensures NoneLost(After(s, steps))
    decreases |steps|
  {
    if steps != [] {
      NoneLostStep(s, steps[0]);
      NoneLostRun(Next(s, steps[0]), steps[1..]);
    }
  }

  /** Once the server has answered everything, each waiting call has its answer ahead. */
  lemma AllAnswered(ids: seq<Option<Id>>, steps: seq<Step>, c: nat) returns (j: nat)
    requires IsTidyRun(Start(ids), steps) && c < |ids|
    requires forall i :: 0 <= i < |steps| ==> IsLossless(steps[i])
    requires IsRun(Start(ids), steps) && |After(Start(ids), steps).calls| == |ids|
    requires var s := After(Start(ids), steps); s.queued == [] && s.atServer == {} && s.calls[c].phase.Waiting?
    ensures var s := After(Start(ids), steps); s.calls[c].phase.cursor <= j && IsAnswer(s, j, c)
  {
    TidyRun(Start(ids), steps);
    NoneLostRun(Start(ids), steps);
    var s := After(Start(ids), steps);
    j :| IsAnswer(s, j, c);
    AnswerIsAhead(s, c, j);
  }

  // ----- A dead server

  /** The call can still end by itself: it will find that it fell behind, or a message with its id. */
  ghost predicate HasWayOut(call: Call, log: seq<Message>)
    requires call.phase.Waiting?
  {
    || |log| - call.phase.cursor > CAPACITY
    || exists j :: call.phase.cursor <= j < |log| && log[j].id == call.id
  }

  lemma NoWayOutStep(s: System, step: Step, c: nat)
    requires Enabled(s, step) && c < |s.calls| && !s.readerUp && s.calls[c].phase.Waiting?
    requires !HasWayOut(s.calls[c], s.log)
    ensures var t := Next(s, step);
            && !t.readerUp && t.log == s.log && |t.calls| == |s.calls|
            && t.calls[c].phase.Waiting? && !HasWayOut(t.calls[c], t.log)
  {
    if step == Recv(c) {
      assert s.log[s.calls[c].phase.cursor].id != s.calls[c].id;
    }
  }

  lemma {:induction false} WaitsForEver(s: System, steps: seq<Step>, c: nat)
    requires IsRun(s, steps) && c < |s.calls| && !s.readerUp && s.calls[c].phase.Waiting?
    requires !HasWayOut(s.calls[c], s.log)
    ensures |After(s, steps).calls| == |s.calls| && After(s, steps).calls[c].phase.Waiting?
    decreases |steps|
  {
    if steps != [] {
      NoWayOutStep(s, steps[0], c);
      WaitsForEver(Next(s, steps[0]), steps[1..], c);
    }
  }

  lemma OneStep(s: System, step: Step)
    requires Enabled(s, step)
    ensures IsRun(s, [step]) && After(s, [step]) == Next(s, step)
  {
    assert [step][1..] == [];
  }

  /** Reading on finds the way out. */
  lemma {:induction false} EndsByReading(s: System, c: nat) returns (steps: seq<Step>)
    requires Orderly(s) && c < |s.calls| && s.calls[c].phase.Waiting? && HasWayOut(s.calls[c], s.log)
    ensures IsRun(s, steps) && |After(s, steps).calls| == |s.calls| && !After(s, steps).calls[c].phase.Waiting?
    decreases |s.log| - s.calls[c].phase.cursor
  {
    assert ReadInOrder(s.calls[c], s.log);
    var t := Next(s, Recv(c));
    if t.calls[c].phase.Waiting? {
      OrderlyStep(s, Recv(c));
      var more := EndsByReading(t, c);
      steps := [Recv(c)] + more;
      assert steps[1..] == more;
    } else {
      steps := [Recv(c)];
      OneStep(s, Recv(c));
    }
  }

  /**
   Once the server has died, a waiting call can still end exactly when it has fallen behind or a message with its
   id is still unread.  Otherwise it waits for ever: it holds the channel open itself.
   */
  lemma DeadServerEndsCallExactlyWhen(s: System, c: nat)
    requires Orderly(s) && c < |s.calls| && !s.readerUp && s.calls[c].phase.Waiting?
    ensures (exists steps :: IsRun(s, steps) && |After(s, steps).calls| == |s.calls|
                             && !After(s, steps).calls[c].phase.Waiting?) <==>
            HasWayOut(s.calls[c], s.log)
  {
    if HasWayOut(s.calls[c], s.log) {
      var steps := EndsByReading(s, c);
    } else {
      forall steps | IsRun(s, steps)
        ensures |After(s, steps).calls| == |s.calls| && After(s, steps).calls[c].phase.Waiting?
      {
        WaitsForEver(s, steps, c);
      }
    }
  }

  // ----- Exactly when calls get their own answers

  /** The server's own messages do not bear the id of an active call; nothing is asked of the calls. */
  ghost predicate IsQuietRun(s: System, steps: seq<Step>)
    decreases |steps|
  {
    steps == [] ||
    (Enabled(s, steps[0]) && (steps[0].Chatter? ==> KeepsIdsApart(s, steps[0])) &&
     IsQuietRun(Next(s, steps[0]), steps[1..]))
  }

  ghost predicate OwnAnswers(s: System) {
    forall c :: 0 <= c < |s.calls| && s.calls[c].phase.Returned? ==>
      s.calls[c].phase.at < |s.log| && s.log[s.calls[c].phase.at].payload == Answer(c)
  }

  ghost predicate Distinct(ids: seq<Option<Id>>) {
    forall c, d :: 0 <= c < d < |ids| && ids[c].Some? ==> ids[c] != ids[d]
  }

  ghost predicate SameIds(s: System, ids: seq<Option<Id>>) {
    |s.calls| == |ids| && forall c :: 0 <= c < |ids| ==> s.calls[c].id == ids[c]
  }

  lemma {:induction false} DistinctIsTidy(s: System, steps: seq<Step>, ids: seq<Option<Id>>)
    requires Distinct(ids) && SameIds(s, ids) && IsQuietRun(s, steps)
    ensures IsTidyRun(s, steps)
    decreases |steps|
  {
    if steps != [] {
      DistinctIsTidy(Next(s, steps[0]), steps[1..], ids);
    }
  }

  lemma {:induction false} RunsCompose(s: System, a: seq<Step>, b: seq<Step>)
    requires IsQuietRun(s, a) && IsRun(s, a) && IsQuietRun(After(s, a), b) && IsRun(After(s, a), b)
    ensures IsQuietRun(s, a + b) && IsRun(s, a + b) && After(s, a + b) == After(After(s, a), b)
    decreases |a|
  {
    if a == [] {
      assert a + b == b;
    } else {
      assert (a + b)[1..] == a[1..] + b;
      RunsCompose(Next(s, a[0]), a[1..], b);
    }
  }

  lemma ThenStep(s: System, a: seq<Step>, step: Step)
    requires IsQuietRun(s, a) && IsRun(s, a) && Enabled(After(s, a), step) && !step.Chatter?
    ensures IsQuietRun(s, a + [step]) && IsRun(s, a + [step]) && After(s, a + [step]) == Next(After(s, a), step)
  {
    OneStep(After(s, a), step);
    RunsCompose(s, a, [step]);
  }

  /** Two calls with one id: the second takes the answer to the first for its own. */
  lemma SharedIdMixesUp(ids: seq<Option<Id>>, c: nat, d: nat) returns (steps: seq<Step>)
    requires c < d < |ids| && ids[c].Some? && ids[c] == ids[d]
    ensures IsQuietRun(Start(ids), steps) && IsRun(Start(ids), steps)
    ensures !OwnAnswers(After(Start(ids), steps))
  {
    var s := Start(ids);
    steps := [];
    ThenStep(s, steps, Subscribe(c));
    steps := steps + [Subscribe(c)];
    ThenStep(s, steps, Subscribe(d));
    steps := steps + [Subscribe(d)];
    ThenStep(s, steps, Send(c));
    steps := steps + [Send(c)];
    ThenStep(s, steps, Send(d));
    steps := steps + [Send(d)];
    ThenStep(s, steps, Write(true));
    steps := steps + [Write(true)];
    ThenStep(s, steps, Respond(c));
    steps := steps + [Respond(c)];
    ThenStep(s, steps, Recv(d));
    steps := steps + [Recv(d)];
    assert After(s, steps).calls[d].phase == Returned(0, 0);
  }

  /** Calls always get their own answers exactly when their ids are distinct, if the server avoids them. */
  lemma OwnAnswersExactlyWhenDistinct(ids: seq<Option<Id>>)
    ensures Distinct(ids) <==>
            forall steps :: IsQuietRun(Start(ids), steps) && IsRun(Start(ids), steps) ==>
              OwnAnswers(After(Start(ids), steps))
  {
    if Distinct(ids) {
      forall steps | IsQuietRun(Start(ids), steps) && IsRun(Start(ids), steps)
        ensures OwnAnswers(After(Start(ids), steps))
      {
        DistinctIsTidy(Start(ids), steps, ids);
        IdsStay(Start(ids), steps);
        forall c: nat | c < |ids| ensures After(Start(ids), steps).calls[c].phase.Returned? ==>
          After(Start(ids), steps).calls[c].phase.at < |After(Start(ids), steps).log| &&
          After(Start(ids), steps).log[After(Start(ids), steps).calls[c].phase.at].payload == Answer(c)
        {
          ReturnsItsAnswer(ids, steps, c);
        }
      }
    } else {
      var c: nat, d: nat :| c < d < |ids| && ids[c].Some? && ids[c] == ids[d];
      var steps := SharedIdMixesUp(ids, c, d);
    }
  }

  /** Matching looks at the id only: a request of the server's own that bears the id passes for the answer. */
  lemma ServerRequestMixesUp(ids: seq<Option<Id>>, c: nat) returns (steps: seq<Step>)
    requires c < |ids| && ids[c].Some?
    ensures IsRun(Start(ids), steps) && !OwnAnswers(After(Start(ids), steps))
  {
    var s := Start(ids);
    var sent := [Subscribe(c), Send(c)];
    ThenStep(s, [], Subscribe(c));
    ThenStep(s, [Subscribe(c)], Send(c));
    assert sent == [] + [Subscribe(c)] + [Send(c)];
    var t := After(s, sent);
    var tail := [Chatter(ids[c]), Recv(c)];
    steps := sent + tail;
    var u := Next(t, tail[0]);
    assert tail[1..] == [Recv(c)];
    OneStep(u, Recv(c));
    PlainRunsCompose(s, sent, tail);
    assert After(s, steps).calls[c].phase == Returned(0, 0);
  }

  lemma {:induction false} PlainRunsCompose(s: System, a: seq<Step>, b: seq<Step>)
    requires IsRun(s, a) && IsRun(After(s, a), b)
    ensures IsRun(s, a + b) && After(s, a + b) == After(After(s, a), b)
    decreases |a|
  {
    if a == [] {
      assert a + b == b;
    } else {
      assert (a + b)[1..] == a[1..] + b;
      PlainRunsCompose(Next(s, a[0]), a[1..], b);
    }
  }
}
