/** What a client may conclude from the responses on a control connection. */
module ControlTheorems {
  import opened Wrappers
  import opened RegistryTypes
  import opened RegistrySteps
  import opened RegistryAccounting
  import opened RegistryCalls
  import opened Control
  import Decimal

  // ----- One response per line

  /** Closing depends on the line alone: too large, wrong version, or a shutdown that is accepted. */
  predicate Closes(d: Decoders, line: Line) {
    && line.Line?
    && (|| line.bytes > MAX_FRAME_SIZE_BYTES
        || (line.json.Some? && VersionIn(line.json.value) != Some(PROTOCOL_VERSION))
        || (IsRequest(line) && AcceptsShutdown(d, ParseEnvelope(line.json.value).value)))
  }

  /** The id that the response bears: the request's own if the line is dispatched or of another version. */
  function EchoedId(line: Line): Option<string> {
    if line.Line? && line.bytes <= MAX_FRAME_SIZE_BYTES && line.json.Some?
       && (IsRequest(line) || VersionIn(line.json.value) != Some(PROTOCOL_VERSION))
    then IdIn(line.json.value) else None
  }

  lemma OneReply(d: Decoders, line: Line, w: World, st: Store)
    requires line.Line?
    ensures var o := ReplyTo(d, line, w, st);
            && o.response.id == EchoedId(line)
            && (o.stop <==> Closes(d, line))
            && (o.shutdown <==> IsRequest(line) && AcceptsShutdown(d, ParseEnvelope(line.json.value).value))
  {
  }

  /**
   Every line that the handler consumes gets exactly one response, in order and with the id of its request.
   It stops right after the first line that closes, and before the first that cannot be read; only an
   accepted shutdown is signalled.
   */
  lemma {:induction false} OneResponsePerLine(d: Decoders, arrivals: seq<Arrival>, st: Store)
    ensures var s := Serve(d, arrivals, st);
            var n := |s.responses|;
            && n <= |arrivals|
            && (forall i :: 0 <= i < n ==> arrivals[i].line.Line? && s.responses[i].id == EchoedId(arrivals[i].line))
            && (forall i :: 0 <= i < n - 1 ==> !Closes(d, arrivals[i].line))
            && (|| (n > 0 && Closes(d, arrivals[n - 1].line))
                || (n < |arrivals| && arrivals[n].line.Unreadable?)
                || n == |arrivals|)
            && (s.failed <==> n < |arrivals| && arrivals[n].line.Unreadable? &&
                              (n > 0 ==> !Closes(d, arrivals[n - 1].line)))
            && (s.shutdown <==> n > 0 && IsRequest(arrivals[n - 1].line) &&
                                AcceptsShutdown(d, ParseEnvelope(arrivals[n - 1].line.json.value).value))
    decreases |arrivals|
  {
    if arrivals != [] && arrivals[0].line.Line? {
      var Arrival(line, w) := arrivals[0];
      var before := DoAll(st, w.others);
      var o := ReplyTo(d, line, w, before);
      OneReply(d, line, w, before);
      if !o.stop {
        OneResponsePerLine(d, arrivals[1..], o.store);
        assert forall i :: 0 < i < |arrivals| ==> arrivals[i] == arrivals[1..][i - 1];
      }
    }
  }

  /** What is dispatched is exactly version 1, though the version is cut to 32 bits before it is compared. */
  lemma OnlyVersionOneIsDispatched(bytes: nat, raw: Json)
    ensures IsRequest(Line(bytes, Some(raw))) <==>
            && bytes <= MAX_FRAME_SIZE_BYTES
            && Get(raw, "v") == Some(Natural(1))
            && (Get(raw, "id").Some? ==> Get(raw, "id").value.Str? || Get(raw, "id").value.Null?)
            && Get(raw, "type").Some? && Get(raw, "type").value.Str?
            && Get(raw, "payload").Some?
    ensures IsRequest(Line(bytes, Some(raw))) ==>
              ParseEnvelope(raw) == Some(Envelope(IdIn(raw), Get(raw, "type").value.s, Get(raw, "payload").value))
  {
    var v := Get(raw, "v");
    if v.Some? && v.value.Natural? && v.value.n < TWO_TO_THE_32 {
      assert v.value.n % TWO_TO_THE_32 == v.value.n;
    }
  }

  /** A version that is 1 after the cut to 32 bits. */
  predicate LooksLikeOne(raw: Json) {
    var v := Get(raw, "v");
    v.Some? && v.value.Natural? && v.value.n % TWO_TO_THE_32 == 1
  }

  /**
   A JSON line whose version is not 1, or which has none, is refused for its version and closes the connection
   exactly when it fits and its version does not look like 1 after the cut.
   */
  lemma WrongVersionCloses(d: Decoders, bytes: nat, raw: Json, w: World, st: Store)
    requires Get(raw, "v") != Some(Natural(1))
    ensures var o := ReplyTo(d, Line(bytes, Some(raw)), w, st);
            && (o == Refusal(st, IdIn(raw), UNSUPPORTED_VERSION, true) <==>
                  bytes <= MAX_FRAME_SIZE_BYTES && !LooksLikeOne(raw))
            && (o == Refusal(st, None, BAD_MESSAGE, false) <==>
                  bytes <= MAX_FRAME_SIZE_BYTES && LooksLikeOne(raw))
            && (o == Refusal(st, None, FRAME_TOO_LARGE, true) <==> bytes > MAX_FRAME_SIZE_BYTES)
  {
    var v := Get(raw, "v");
    if v.Some? && v.value.Natural? && v.value.n < TWO_TO_THE_32 {
      assert v.value.n % TWO_TO_THE_32 == v.value.n;
    }
  }

  /**
   A request's id comes back exactly unless the line is too large, or its version passes but the rest of the
   envelope is malformed.
   */
  lemma IdIsLostExactlyWhen(d: Decoders, bytes: nat, raw: Json, w: World, st: Store)
    requires IdIn(raw).Some?
    ensures ReplyTo(d, Line(bytes, Some(raw)), w, st).response.id != IdIn(raw) <==>
            || bytes > MAX_FRAME_SIZE_BYTES
            || (LooksLikeOne(raw) &&
                (|| Get(raw, "v") != Some(Natural(1))
                 || Get(raw, "type").None? || !Get(raw, "type").value.Str?
                 || Get(raw, "payload").None?))
  {
    OnlyVersionOneIsDispatched(bytes, raw);
    OneReply(d, Line(bytes, Some(raw)), w, st);
  }

  /** The six types of request. */
  predicate IsKind(kind: string) {
    kind in ["Attach", "Release", "Call", "Notify", "Stats", "Shutdown"]
  }

  /** Exactly the other types are unknown, `Ping` among them. */
  lemma UnknownExactlyWhen(d: Decoders, req: Envelope, w: World, st: Store)
    ensures DispatchReply(d, req, w, st).1 == UNKNOWN_TYPE <==> !IsKind(req.kind)
  {
  }

  // ----- Errors of a call

  lemma {:induction false} ContainsPrefix(s: string, part: string, more: string)
    requires s == part + more
    ensures Contains(s, part)
  {
  }

  /** The notice that memory eviction leaves on a session reaches whoever still calls on it. */
  lemma EvictionIsTold(id: string, isCall: bool, w: World, st: Store)
    requires id in st.leases && st.leases[id].key in st.sessions && st.sessions[st.leases[id].key].terminating
    requires var notice := st.sessions[st.leases[id].key].notice; notice.Some? && notice.value.code == EVICTED_MEMORY
    ensures ForwardReply(Some(id), isCall, w, st) == (st, Refused(EVICTED_MEMORY, true))
  {
    var n := st.sessions[st.leases[id].key].notice.value;
    ContainsPrefix(EndingMessage(Some(n)), EVICTED_MEMORY, ": " + n.message);
    assert EndingMessage(Some(n)) == EVICTED_MEMORY + (": " + n.message);
  }

  // ----- Responses tell the client which leases it holds

  /** `reply` names a lease exactly when one came or went between `before` and `after`. */
  ghost predicate TellsLeases(before: Store, reply: Reply, after: Store) {
    match reply
    case AttachOk(id, _) =>
      && id !in EverIssued(before) && id in after.leases && after.leases - {id} == before.leases
      && after.leases[id].key in after.sessions
    case ReleaseOk(id, left) =>
      && id in before.leases && after.leases == before.leases - {id}
      && left == LeasesOn(after.leases, before.leases[id].key)
    case _ => after.leases == before.leases
  }

  ghost predicate Tells(before: Store, r: (Store, Reply)) {
    TellsLeases(before, r.1, r.0)
  }

  lemma ReleaseDropsIt(st: Store, id: string, now: nat)
    ensures ReleaseCall(st, id, now).leases == st.leases - {id}
  {
  }

  lemma AddAndDrop(leases: Leases, id: string, r: LeaseRecord)
    requires id !in leases
    ensures leases[id := r] - {id} == leases
  {
  }

  /** Nobody else calls while the line is served. */
  predicate Undisturbed(w: World) {
    w.meanwhile == [] && w.later == []
  }

  lemma AttachTellsLeases(body: Option<AttachBody>, w: World, st: Store)
    requires LeaseName(st.leaseSeq) !in EverIssued(st) && Undisturbed(w)
    ensures Tells(st, AttachReply(body, w, st))
  {
    if body.Some? && ValidSessionKey(body.value.key) {
      var id, key, kind := LeaseName(st.leaseSeq), body.value.key, body.value.clientKind;
      var after := AcquireCall(st, key, kind, w.spawned, w.now);
      AcquireAddsOneLease(st, key, kind, w.spawned, w.now);
      AddAndDrop(st.leases, id, LeaseRecord(key, kind));
      ReleaseDropsIt(after, id, w.now);
      assert DoAll(after, w.meanwhile) == after && DoAll(after, w.later) == after;
    }
  }

  /** What others call from the grant of a lease to the response that names it. */
  function During(w: World, mode: StreamMode): seq<Call> {
    w.meanwhile + if mode == Dedicated then w.later else []
  }

  lemma LeaseAfterGrant(
    st: Store, key: SessionKey, kind: Option<ClientKind>, spawned: Option<SessionHandle>, now: nat, calls: seq<Call>
  )
    requires IdsKnown(st) && AcquireSucceeds(st, key, spawned)
    requires DoAll(AcquireCall(st, key, kind, spawned, now), calls).leaseSeq <= Decimal.TWO_TO_THE_64 + 1
    ensures var id, after := LeaseName(st.leaseSeq), DoAll(AcquireCall(st, key, kind, spawned, now), calls);
            && id !in EverIssued(st)
            && (id in after.leases <==> forall c :: c in calls ==> !Ends(c, id, key))
            && (id in after.leases ==> after.leases[id].key == key)
  {
    var id, attached := LeaseName(st.leaseSeq), AcquireCall(st, key, kind, spawned, now);
    SeqGrowsSlowly(st, Attach(key, kind, spawned, now));
    SeqNeverFalls(attached, calls);
    NextIdIsNew(st);
    AcquireAddsOneLease(st, key, kind, spawned, now);
    LeaseLivesUntilEnded(attached, calls, id);
  }

  /**
   An attach that is granted names a lease that was never in use.  The lease is live when the response is sent
   exactly when, since the grant, nobody removed its session or released it.
   */
  lemma AttachNamesLiveLease(body: Option<AttachBody>, w: World, st: Store)
    requires IdsKnown(st) && AttachReply(body, w, st).1.AttachOk?
    requires AttachReply(body, w, st).0.leaseSeq <= Decimal.TWO_TO_THE_64 + 1
    ensures body.Some?
    ensures var (after, reply) := AttachReply(body, w, st);
            && reply.leaseId !in EverIssued(st)
            && (reply.leaseId in after.leases <==>
                  forall c :: c in During(w, reply.mode) ==> !Ends(c, reply.leaseId, body.value.key))
  {
    var b := body.value;
    var attached, mode := AcquireCall(st, b.key, b.clientKind, w.spawned, w.now), PreferredStreamMode(b.streamModes);
    DoAllConcat(attached, w.meanwhile, w.later);
    assert w.meanwhile + [] == w.meanwhile;
    LeaseAfterGrant(st, b.key, b.clientKind, w.spawned, w.now, During(w, mode));
  }

  lemma SessionStays(st: Store, calls: seq<Call>, key: SessionKey)
    requires key in st.sessions && Discard(key) !in calls
    ensures key in DoAll(st, calls).sessions
    decreases |calls|
  {
    if calls != [] {
      assert calls[0] in calls && key in Do(st, calls[0]).sessions;
      assert Discard(key) !in calls[1..];
      SessionStays(Do(st, calls[0]), calls[1..], key);
    }
  }

  /** An attach that got its lease finds its session gone only if somebody removed it in between. */
  lemma AttachFindsItsSession(body: AttachBody, w: World, st: Store)
    requires AcquireSucceeds(st, body.key, w.spawned) && Discard(body.key) !in w.meanwhile
    ensures body.key in DoAll(AcquireCall(st, body.key, body.clientKind, w.spawned, w.now), w.meanwhile).sessions
  {
    AcquireAddsOneLease(st, body.key, body.clientKind, w.spawned, w.now);
    SessionStays(AcquireCall(st, body.key, body.clientKind, w.spawned, w.now), w.meanwhile, body.key);
  }

  ghost predicate OthersFit(w: World) {
    forall c :: c in w.others || c in w.meanwhile || c in w.later ==> CallFits(c)
  }

  lemma RefusedGrant(key: SessionKey, lease: string, mode: StreamMode, w: World, st: Store)
    requires Conserved(st) && (lease in st.leases ==> st.leases[lease].key == key)
    requires !GrantReply(key, lease, mode, w, st).1.AttachOk?
    ensures lease !in GrantReply(key, lease, mode, w, st).0.leases
  {
    if key in st.sessions {
      ReleaseDropsIt(DoAll(st, w.later), lease, w.now);
    }
  }

  /** A refused attach leaves no lease behind: none was granted, or it went with its session or was released. */
  lemma RefusedAttachLeavesNoLease(body: Option<AttachBody>, w: World, st: Store)
    requires Balanced(st) && !AttachReply(body, w, st).1.AttachOk? && st.leaseSeq <= Decimal.TWO_TO_THE_64
    requires AttachReply(body, w, st).0.leaseSeq <= Decimal.TWO_TO_THE_64 + 1
    requires OthersFit(w) && (body.Some? && w.spawned.Some? ==> w.spawned.value.key == body.value.key)
    ensures LeaseName(st.leaseSeq) !in AttachReply(body, w, st).0.leases
  {
    NextIdIsNew(st);
    if body.Some? && ValidSessionKey(body.value.key) {
      var b := body.value;
      AcquireAddsOneLease(st, b.key, b.clientKind, w.spawned, w.now);
      if AcquireSucceeds(st, b.key, w.spawned) {
        RefusedAfterGrant(b, w, st);
      }
    }
  }

  lemma ConservedAtLookup(st: Store, attach: Call, calls: seq<Call>)
    requires Balanced(st) && CallFits(attach) && (forall c :: c in calls ==> CallFits(c))
    requires DoAll(Do(st, attach), calls).leaseSeq <= Decimal.TWO_TO_THE_64 + 1
    ensures Conserved(DoAll(Do(st, attach), calls))
  {
    SeqNeverFalls(Do(st, attach), calls);
    CallKeepsBalance(st, attach);
    LeasesAreConserved(Do(st, attach), calls);
  }

  lemma GrantTakesNoNumberBack(key: SessionKey, lease: string, mode: StreamMode, w: World, st: Store)
    ensures st.leaseSeq <= GrantReply(key, lease, mode, w, st).0.leaseSeq
  {
    SeqNeverFalls(st, w.later);
  }

  lemma RefusedAfterGrant(b: AttachBody, w: World, st: Store)
    requires Balanced(st) && ValidSessionKey(b.key) && AcquireSucceeds(st, b.key, w.spawned)
    requires !AttachReply(Some(b), w, st).1.AttachOk?
    requires AttachReply(Some(b), w, st).0.leaseSeq <= Decimal.TWO_TO_THE_64 + 1
    requires OthersFit(w) && (w.spawned.Some? ==> w.spawned.value.key == b.key)
    ensures LeaseName(st.leaseSeq) !in AttachReply(Some(b), w, st).0.leases
  {
    var attach := Attach(b.key, b.clientKind, w.spawned, w.now);
    var looked := DoAll(Do(st, attach), w.meanwhile);
    var lease, mode := LeaseName(st.leaseSeq), PreferredStreamMode(b.streamModes);
    assert AttachReply(Some(b), w, st) == GrantReply(b.key, lease, mode, w, looked);
    GrantTakesNoNumberBack(b.key, lease, mode, w, looked);
    ConservedAtLookup(st, attach, w.meanwhile);
    LeaseAfterGrant(st, b.key, b.clientKind, w.spawned, w.now, w.meanwhile);
    RefusedGrant(b.key, lease, mode, w, looked);
  }

  lemma ReleaseTellsLeases(id: Option<string>, w: World, st: Store)
    requires Balanced(st)
    ensures Tells(st, ReleaseReply(id, w, st))
  {
    if id.Some? && id.value in st.leases {
      ReleaseReturnsLeasesLeft(st, id.value, w.now);
    }
  }

  lemma ForwardTellsLeases(id: Option<string>, isCall: bool, w: World, st: Store)
    requires Undisturbed(w)
    ensures Tells(st, ForwardReply(id, isCall, w, st))
  {
  }

  lemma DispatchTellsLeases(d: Decoders, req: Envelope, w: World, st: Store)
    requires Tells(st, AttachReply(d.attach(req.payload), w, st))
    requires Tells(st, ReleaseReply(d.release(req.payload), w, st))
    requires Tells(st, ForwardReply(d.call(req.payload), true, w, st))
    requires Tells(st, ForwardReply(d.notify(req.payload), false, w, st))
    ensures Tells(st, DispatchReply(d, req, w, st))
  {
  }

  lemma ReplyTellsAsDispatch(d: Decoders, line: Line, w: World, st: Store)
    requires line.Line?
    requires IsRequest(line) ==> Tells(st, DispatchReply(d, ParseEnvelope(line.json.value).value, w, st))
    ensures Tells(st, (ReplyTo(d, line, w, st).store, ReplyTo(d, line, w, st).response.reply))
  {
  }

  /**
   Undisturbed responses tell a client which leases it holds: an attach that is granted adds the one new lease that
   it names, a release takes away the one that it names and tells how many its session has left, and no
   other response comes with a change of the leases.
   */
  lemma ResponseTellsLeases(d: Decoders, line: Line, w: World, st: Store)
    requires line.Line? && Balanced(st) && st.leaseSeq <= Decimal.TWO_TO_THE_64 && Undisturbed(w)
    ensures Tells(st, (ReplyTo(d, line, w, st).store, ReplyTo(d, line, w, st).response.reply))
  {
    if IsRequest(line) {
      var req := ParseEnvelope(line.json.value).value;
      assert Tells(st, AttachReply(d.attach(req.payload), w, st)) by {
        NextIdIsNew(st);
        AttachTellsLeases(d.attach(req.payload), w, st);
      }
      ReleaseTellsLeases(d.release(req.payload), w, st);
      ForwardTellsLeases(d.call(req.payload), true, w, st);
      ForwardTellsLeases(d.notify(req.payload), false, w, st);
      DispatchTellsLeases(d, req, w, st);
    }
    ReplyTellsAsDispatch(d, line, w, st);
  }

  /** A spawned server has the key that the attach asked for. */
  ghost predicate SpawnFits(d: Decoders, line: Line, w: World) {
    IsRequest(line) && w.spawned.Some? ==>
      var body := d.attach(ParseEnvelope(line.json.value).value.payload);
      body.Some? ==> w.spawned.value.key == body.value.key
  }

  ghost predicate WorldFits(d: Decoders, arrivals: seq<Arrival>) {
    forall a :: a in arrivals ==> OthersFit(a.world) && SpawnFits(d, a.line, a.world)
  }

  lemma ReplyKeepsBalance(d: Decoders, line: Line, w: World, st: Store)
    requires line.Line? && Balanced(st) && OthersFit(w) && SpawnFits(d, line, w)
    requires ReplyTo(d, line, w, st).store.leaseSeq <= Decimal.TWO_TO_THE_64 + 1
    ensures Balanced(ReplyTo(d, line, w, st).store)
  {
    ReplyIsCalls(d, line, w, st);
    ReplyCallsFit(d, line, w, st);
    LeasesAreConserved(st, ReplyCalls(d, line, w, st));
  }

  lemma ReplyCallsFit(d: Decoders, line: Line, w: World, st: Store)
    requires line.Line? && OthersFit(w) && SpawnFits(d, line, w)
    ensures forall c :: c in ReplyCalls(d, line, w, st) ==> CallFits(c)
  {
  }

  lemma ReplyNeverTakesBackIds(d: Decoders, line: Line, w: World, st: Store)
    requires line.Line?
    ensures st.leaseSeq <= ReplyTo(d, line, w, st).store.leaseSeq
  {
    ReplyIsCalls(d, line, w, st);
    SeqNeverFalls(st, ReplyCalls(d, line, w, st));
  }

  lemma {:induction false} ServeNeverTakesBackIds(d: Decoders, arrivals: seq<Arrival>, st: Store)
    ensures st.leaseSeq <= Serve(d, arrivals, st).store.leaseSeq
    decreases |arrivals|
  {
    if arrivals != [] {
      var Arrival(line, w) := arrivals[0];
      SeqNeverFalls(st, w.others);
      if line.Line? {
        var before := DoAll(st, w.others);
        ReplyNeverTakesBackIds(d, line, w, before);
        ServeNeverTakesBackIds(d, arrivals[1..], ReplyTo(d, line, w, before).store);
      }
    }
  }

  /** Whatever comes in on a connection, and whatever other tasks do meanwhile, leases stay conserved. */
  lemma {:induction false} ConnectionKeepsBalance(d: Decoders, arrivals: seq<Arrival>, st: Store)
    requires Balanced(st) && WorldFits(d, arrivals)
    requires Serve(d, arrivals, st).store.leaseSeq <= Decimal.TWO_TO_THE_64 + 1
    ensures Balanced(Serve(d, arrivals, st).store)
    decreases |arrivals|
  {
    if arrivals != [] {
      var a := arrivals[0];
      assert a in arrivals;
      var before := DoAll(st, a.world.others);
      if a.line.Unreadable? {
        LeasesAreConserved(st, a.world.others);
      } else {
        var o := ReplyTo(d, a.line, a.world, before);
        assert o.store.leaseSeq <= Serve(d, arrivals, st).store.leaseSeq by {
          ServeNeverTakesBackIds(d, arrivals[1..], o.store);
        }
        ReplyNeverTakesBackIds(d, a.line, a.world, before);
        LeasesAreConserved(st, a.world.others);
        ReplyKeepsBalance(d, a.line, a.world, before);
        if !o.stop {
          ConnectionKeepsBalance(d, arrivals[1..], o.store);
        }
      }
    }
  }
}
