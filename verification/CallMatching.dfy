/**
 Matching answers to calls (crates/lspee_lsp/src/lib.rs, `LspRuntime::call`): any number of calls share one
 broadcast channel on which the reader task puts every message of the language server.  Ids are matched as
 in section 5 of the JSON-RPC 2.0 specification.
 */
module CallMatching {
  import opened Wrappers

  const CAPACITY := 256

  /** Any JSON value that is there will do as an id, `null` too; `Other` is one by its text. */
  datatype Id = Null | Number(n: int) | Text(s: string) | Other(json: string)

  /** Which request a message answers is not on the wire; the payload stands for it. */
  datatype Payload = Answer(to: nat) | Unrelated

  datatype Message = Message(id: Option<Id>, payload: Payload)

  /** Where a call is; `since` is where it subscribed, `cursor` its next message. */
  datatype Phase =
    | Ready
    | Subscribed(since: nat)
    | Waiting(since: nat, cursor: nat)
    | Returned(since: nat, at: nat)
    | Failed

  datatype Call = Call(id: Option<Id>, phase: Phase)

  /** `log` is everything ever sent on the channel, `queued` waits for the writer, `atServer` for an answer. */
  datatype System = System(calls: seq<Call>, queued: seq<nat>, atServer: set<nat>, log: seq<Message>,
                           writerUp: bool, readerUp: bool)

  datatype Step =
    | Subscribe(c: nat)
    | Send(c: nat)
    | Recv(c: nat)
    | Write(encoded: bool)
    | Respond(c: nat)
    | Chatter(id: Option<Id>)
    | WriterStops
    | ReaderStops

  function InPhase(s: System, c: nat, phase: Phase): System
    requires c < |s.calls|
  {
    s.(calls := s.calls[c := s.calls[c].(phase := phase)])
  }

  predicate Enabled(s: System, step: Step) {
    match step
    case Subscribe(c) => c < |s.calls| && s.calls[c].phase.Ready?
    case Send(c) => c < |s.calls| && s.calls[c].phase.Subscribed? && (s.writerUp ==> |s.queued| < CAPACITY)
    case Recv(c) => c < |s.calls| && s.calls[c].phase.Waiting? && s.calls[c].phase.cursor < |s.log|
    case Write(_) => s.writerUp && s.queued != []
    case Respond(c) => s.readerUp && c in s.atServer && c < |s.calls|
    case Chatter(_) => s.readerUp
    case WriterStops => s.writerUp
    case ReaderStops => s.readerUp
  }

  /** One turn of the loop of `call`: a receiver that lags too far behind gets an error. */
  function AfterRecv(call: Call, log: seq<Message>): Phase
    requires call.phase.Waiting? && call.phase.cursor < |log|
  {
    var Waiting(since, cursor) := call.phase;
    if |log| - cursor > CAPACITY then Failed
    else if log[cursor].id == call.id then Returned(since, cursor)
    else Waiting(since, cursor + 1)
  }

  function Next(s: System, step: Step): System
    requires Enabled(s, step)
  {
    match step
    case Subscribe(c) => InPhase(s, c, if s.calls[c].id.None? then Failed else Subscribed(|s.log|))
    case Send(c) =>
      if s.writerUp
      then InPhase(s, c, Waiting(s.calls[c].phase.since, s.calls[c].phase.since)).(queued := s.queued + [c])
      else InPhase(s, c, Failed)
    case Recv(c) => InPhase(s, c, AfterRecv(s.calls[c], s.log))
    case Write(encoded) =>
      s.(queued := s.queued[1..], atServer := if encoded then s.atServer + {s.queued[0]} else s.atServer)
    case Respond(c) => s.(atServer := s.atServer - {c}, log := s.log + [Message(s.calls[c].id, Answer(c))])
    case Chatter(id) => s.(log := s.log + [Message(id, Unrelated)])
    case WriterStops => s.(writerUp := false, queued := [])
    case ReaderStops => s.(readerUp := false)
  }

  function Start(ids: seq<Option<Id>>): System {
    System(seq(|ids|, c requires 0 <= c < |ids| => Call(ids[c], Ready)), [], {}, [], true, true)
  }

  ghost predicate IsRun(s: System, steps: seq<Step>)
    decreases |steps|
  {
    steps == [] || (Enabled(s, steps[0]) && IsRun(Next(s, steps[0]), steps[1..]))
  }

  ghost function After(s: System, steps: seq<Step>): System
    requires IsRun(s, steps)
    decreases |steps|
  {
    if steps == [] then s else After(Next(s, steps[0]), steps[1..])
  }

  predicate Active(s: System, c: nat) {
    c < |s.calls| && (s.calls[c].phase.Subscribed? || s.calls[c].phase.Waiting?)
  }

  /** Its request is on the way to the server or at the server. */
  predicate Outstanding(s: System, c: nat) {
    c < |s.calls| && (c in s.queued || c in s.atServer)
  }

  // ----- Every run, whatever the ids

  ghost predicate ReadInOrder(call: Call, log: seq<Message>) {
    match call.phase
    case Subscribed(since) => call.id.Some? && since <= |log|
    case Waiting(since, cursor) =>
      && call.id.Some? && since <= cursor <= |log|
      && (forall j :: since <= j < cursor ==> log[j].id != call.id)
    case Returned(since, at) =>
      && call.id.Some? && since <= at < |log| && log[at].id == call.id
      && (forall j :: since <= j < at ==> log[j].id != call.id)
    case _ => true
  }

  /** Each call has read without a gap from where it subscribed up to the first message with its id. */
  ghost predicate Orderly(s: System) {
    forall c :: 0 <= c < |s.calls| ==> ReadInOrder(s.calls[c], s.log)
  }

  lemma OrderlyStep(s: System, step: Step)
    requires Orderly(s) && Enabled(s, step)
    ensures Orderly(Next(s, step))
  {
    var t := Next(s, step);
    forall c | 0 <= c < |t.calls| ensures ReadInOrder(t.calls[c], t.log) {
      assert ReadInOrder(s.calls[c], s.log);
    }
  }

  // ----- Runs in which ids tell calls apart

  /**
   A step that keeps ids apart: a call starts with an id that no active call and no unanswered request has,
   and the server's own messages do not bear the id of an active call.
   */
  predicate KeepsIdsApart(s: System, step: Step) {
    match step
    case Subscribe(c) =>
      c < |s.calls| && s.calls[c].id.Some? ==>
        forall d :: 0 <= d < |s.calls| && d != c && (Active(s, d) || Outstanding(s, d)) ==>
          s.calls[d].id != s.calls[c].id
    case Chatter(id) => forall d :: 0 <= d < |s.calls| && Active(s, d) ==> s.calls[d].id != id
    case _ => true
  }

  ghost predicate IsTidyRun(s: System, steps: seq<Step>)
    decreases |steps|
  {
    steps == [] ||
    (Enabled(s, steps[0]) && KeepsIdsApart(s, steps[0]) && IsTidyRun(Next(s, steps[0]), steps[1..]))
  }

  /** No active call shares its id with another active call or unanswered request. */
  ghost predicate Apart(s: System) {
    forall c: nat, d: nat :: c != d && Active(s, c) && (Active(s, d) || Outstanding(s, d)) ==>
      s.calls[c].id != s.calls[d].id
  }

  /** A request waits at most once for its answer, and only while or after its call waits. */
  ghost predicate SentOnce(s: System) {
    && (forall i :: 0 <= i < |s.queued| ==> s.queued[i] !in s.atServer && s.queued[i] < |s.calls|)
    && (forall i, j :: 0 <= i < j < |s.queued| ==> s.queued[i] != s.queued[j])
    && (forall c: nat :: Outstanding(s, c) ==> !s.calls[c].phase.Ready? && !s.calls[c].phase.Subscribed?)
  }

  predicate IsAnswer(s: System, j: nat, c: nat) {
    j < |s.log| && s.log[j].payload == Answer(c)
  }

  /** Answers come after the request and at most once. */
  ghost predicate AnsweredOnce(s: System) {
    && (forall c: nat, j: nat :: IsAnswer(s, j, c) && c < |s.calls| ==>
          && !Outstanding(s, c) && s.log[j].id == s.calls[c].id
          && !s.calls[c].phase.Ready? && !s.calls[c].phase.Subscribed?)
    && (forall c: nat, i: nat, j: nat :: IsAnswer(s, i, c) && IsAnswer(s, j, c) ==> i == j)
  }

  /** From where a call subscribed on, only its own answer bears its id. */
  ghost predicate OnlyItsAnswer(call: Call, c: nat, log: seq<Message>) {
    match call.phase
    case Subscribed(since) => forall j :: since <= j < |log| ==> log[j].id != call.id
    case Waiting(since, _) =>
      && (forall j :: since <= j < |log| && log[j].id == call.id ==> log[j].payload == Answer(c))
      && (forall j :: 0 <= j < since && j < |log| ==> log[j].payload != Answer(c))
    case Returned(_, at) => at < |log| && log[at].payload == Answer(c)
    case _ => true
  }

  ghost predicate OnlyAnswers(s: System) {
    forall c :: 0 <= c < |s.calls| ==> OnlyItsAnswer(s.calls[c], c, s.log)
  }

  ghost predicate Tidy(s: System) {
    Orderly(s) && Apart(s) && SentOnce(s) && AnsweredOnce(s) && OnlyAnswers(s)
  }

  lemma ApartStep(s: System, step: Step)
    requires Apart(s) && Enabled(s, step) && KeepsIdsApart(s, step)
    ensures Apart(Next(s, step))
  {
    var t := Next(s, step);
    forall c: nat, d: nat | c != d && Active(t, c) && (Active(t, d) || Outstanding(t, d))
      ensures t.calls[c].id != t.calls[d].id
    {
      assert step.Subscribe? || Active(s, c);
    }
  }

  lemma SentOnceStep(s: System, step: Step)
    requires SentOnce(s) && Enabled(s, step)
    ensures SentOnce(Next(s, step))
  {
    var t := Next(s, step);
    if step.Send? && s.writerUp {
      assert !Outstanding(s, step.c);
    }
    forall c: nat | Outstanding(t, c)
      ensures !t.calls[c].phase.Ready? && !t.calls[c].phase.Subscribed?
    {
      assert Outstanding(s, c) || step == Send(c);
    }
  }

  lemma AnsweredOnceStep(s: System, step: Step)
    requires AnsweredOnce(s) && SentOnce(s) && Enabled(s, step)
    ensures AnsweredOnce(Next(s, step))
  {
    var t := Next(s, step);
    forall c: nat, j: nat | IsAnswer(t, j, c) && c < |t.calls|
      ensures !Outstanding(t, c) && t.log[j].id == t.calls[c].id
      ensures !t.calls[c].phase.Ready? && !t.calls[c].phase.Subscribed?
    {
      assert IsAnswer(s, j, c) || (step == Respond(c) && Outstanding(s, c));
    }
    forall c: nat, i: nat, j: nat | IsAnswer(t, i, c) && IsAnswer(t, j, c)
      ensures i == j
    {
      assert IsAnswer(s, i, c) || step == Respond(c);
      assert IsAnswer(s, j, c) || step == Respond(c);
    }
  }

  lemma OnlyAnswersStep(s: System, step: Step)
    requires Tidy(s) && Enabled(s, step) && KeepsIdsApart(s, step)
    ensures OnlyAnswers(Next(s, step))
  {
    var t := Next(s, step);
    forall c: nat | c < |t.calls| ensures OnlyItsAnswer(t.calls[c], c, t.log) {
      assert OnlyItsAnswer(s.calls[c], c, s.log);
      assert ReadInOrder(s.calls[c], s.log);
      if step.Respond? && step.c != c {
        assert Outstanding(s, step.c);
      }
      if step == Send(c) && s.writerUp {
        forall j: nat | j < |s.log| ensures s.log[j].payload != Answer(c) {
          assert !IsAnswer(s, j, c);
        }
      }
    }
  }
}
