/** Keeping books of one's leases by the responses on a control connection. */
module ControlLedger {
  import opened Wrappers
  import opened RegistryTypes
  import opened RegistrySteps
  import opened RegistryCalls
  import opened Control
  import opened ControlTheorems
  import Decimal

  // ----- Alone on the daemon

  /** The leases that a client knows of, going by the responses. */
  ghost function Ledger(held: set<string>, responses: seq<Response>): set<string>
    decreases |responses|
  {
    if responses == [] then held
    else
      var now := match responses[0].reply
        case AttachOk(id, _) => held + {id}
        case ReleaseOk(id, _) => held - {id}
        case _ => held;
      Ledger(now, responses[1..])
  }

  lemma LedgerStep(st: Store, response: Response, after: Store)
    requires Tells(st, (after, response.reply))
    ensures after.leases.Keys == Ledger(st.leases.Keys, [response])
  {
    match response.reply
    case AttachOk(id, _) => assert st.leases.Keys == after.leases.Keys - {id};
    case _ =>
  }

  lemma LedgerOneReply(d: Decoders, line: Line, w: World, st: Store)
    requires line.Line? && Balanced(st) && OthersFit(w) && SpawnFits(d, line, w) && Undisturbed(w)
    requires ReplyTo(d, line, w, st).store.leaseSeq <= Decimal.TWO_TO_THE_64
    ensures var o := ReplyTo(d, line, w, st);
            Balanced(o.store) && o.store.leases.Keys == Ledger(st.leases.Keys, [o.response])
  {
    var o := ReplyTo(d, line, w, st);
    ReplyNeverTakesBackIds(d, line, w, st);
    ResponseTellsLeases(d, line, w, st);
    LedgerStep(st, o.response, o.store);
    ReplyKeepsBalance(d, line, w, st);
  }

  lemma LedgerCons(held: set<string>, r: Response, more: seq<Response>)
    ensures Ledger(held, [r] + more) == Ledger(Ledger(held, [r]), more)
  {
    assert ([r] + more)[1..] == more;
  }

  /** Bookkeeping by the responses is exact: alone on the daemon, a client knows every lease at every time. */
  lemma {:induction false} ConnectionLedger(d: Decoders, arrivals: seq<Arrival>, st: Store)
    requires Balanced(st) && WorldFits(d, arrivals)
    requires forall a :: a in arrivals ==> a.world.others == [] && Undisturbed(a.world)
    requires Serve(d, arrivals, st).store.leaseSeq <= Decimal.TWO_TO_THE_64
    ensures Serve(d, arrivals, st).store.leases.Keys == Ledger(st.leases.Keys, Serve(d, arrivals, st).responses)
    decreases |arrivals|
  {
    if arrivals != [] && arrivals[0].line.Line? {
      var a, rest := arrivals[0], arrivals[1..];
      assert a in arrivals;
      var o := ReplyTo(d, a.line, a.world, st);
      var more := Serve(d, rest, o.store);
      assert DoAll(st, a.world.others) == st;
      assert Serve(d, arrivals, st) ==
             if o.stop then Served(o.store, [o.response], o.shutdown, false) else Prefixed([o.response], more);
      ServeNeverTakesBackIds(d, rest, o.store);
      LedgerOneReply(d, a.line, a.world, st);
      if !o.stop {
        ConnectionLedger(d, rest, o.store);
        LedgerCons(st.leases.Keys, o.response, more.responses);
      }
    }
  }

  // ----- Among other clients

  ghost function Granted(responses: seq<Response>): set<string> {
    set r | r in responses && r.reply.AttachOk? :: r.reply.leaseId
  }

  /** A call that removes no session and releases none of these leases. */
  predicate Spares(c: Call, ids: set<string>) {
    !c.Discard? && (c.Detach? ==> c.id !in ids)
  }

  ghost predicate WorldSpares(w: World, ids: set<string>) {
    forall c :: c in w.others || c in w.meanwhile || c in w.later ==> Spares(c, ids)
  }

  /** What a line releases itself: the lease it asks to release, or the one whose stream could not be made. */
  lemma OwnReleases(d: Decoders, line: Line, w: World, st: Store, c: Call)
    requires line.Line? && c in ReplyCalls(d, line, w, st) && c !in w.meanwhile && c !in w.later
    ensures !c.Discard?
    ensures c.Detach? ==> || c.id == LeaseName(st.leaseSeq) || c.id !in st.leases
                          || (ReplyTo(d, line, w, st).response.reply.ReleaseOk? &&
                              ReplyTo(d, line, w, st).response.reply.leaseId == c.id)
  {
  }

  lemma HeldSurvive(st: Store, calls: seq<Call>, held: set<string>)
    requires IdsKnown(st) && held <= st.leases.Keys && (forall c :: c in calls ==> Spares(c, held))
    requires DoAll(st, calls).leaseSeq <= Decimal.TWO_TO_THE_64 + 1
    ensures held <= DoAll(st, calls).leases.Keys
  {
    forall id | id in held ensures id in DoAll(st, calls).leases {
      KnownLeaseLives(st, calls, id);
    }
  }

  lemma LineSparesHeld(d: Decoders, line: Line, w: World, st: Store, held: set<string>)
    requires line.Line? && IdsKnown(st) && held <= st.leases.Keys && WorldSpares(w, held)
    requires st.leaseSeq <= Decimal.TWO_TO_THE_64
    requires ReplyTo(d, line, w, st).store.leaseSeq <= Decimal.TWO_TO_THE_64 + 1
    ensures var o := ReplyTo(d, line, w, st);
            held - (if o.response.reply.ReleaseOk? then {o.response.reply.leaseId} else {}) <= o.store.leases.Keys
  {
    var o, calls := ReplyTo(d, line, w, st), ReplyCalls(d, line, w, st);
    var kept := held - if o.response.reply.ReleaseOk? then {o.response.reply.leaseId} else {};
    ReplyIsCalls(d, line, w, st);
    NextIdIsNew(st);
    forall c | c in calls ensures Spares(c, kept) {
      if c !in w.meanwhile && c !in w.later {
        OwnReleases(d, line, w, st, c);
      }
    }
    HeldSurvive(st, calls, kept);
  }

  /** Only an attach is answered with a lease. */
  lemma GrantIsAttach(d: Decoders, req: Envelope, w: World, st: Store)
    requires DispatchReply(d, req, w, st).1.AttachOk?
    ensures DispatchReply(d, req, w, st) == AttachReply(d.attach(req.payload), w, st)
  {
  }

  lemma GrantOfLine(d: Decoders, line: Line, w: World, st: Store) returns (body: Option<AttachBody>)
    requires line.Line? && ReplyTo(d, line, w, st).response.reply.AttachOk?
    ensures ReplyTo(d, line, w, st).store == AttachReply(body, w, st).0
    ensures ReplyTo(d, line, w, st).response.reply == AttachReply(body, w, st).1
  {
    var req := ParseEnvelope(line.json.value).value;
    body := d.attach(req.payload);
    GrantIsAttach(d, req, w, st);
  }

  lemma GrantSurvives(body: Option<AttachBody>, w: World, st: Store)
    requires IdsKnown(st) && AttachReply(body, w, st).1.AttachOk?
    requires AttachReply(body, w, st).0.leaseSeq <= Decimal.TWO_TO_THE_64 + 1
    requires WorldSpares(w, {AttachReply(body, w, st).1.leaseId})
    ensures AttachReply(body, w, st).1.leaseId in AttachReply(body, w, st).0.leases
  {
    var reply := AttachReply(body, w, st).1;
    AttachNamesLiveLease(body, w, st);
    assert forall c :: c in During(w, reply.mode) ==> Spares(c, {reply.leaseId});
  }

  lemma LedgerAmidOne(d: Decoders, line: Line, w: World, st: Store, held: set<string>)
    requires line.Line? && IdsKnown(st) && held <= st.leases.Keys && st.leaseSeq <= Decimal.TWO_TO_THE_64
    requires ReplyTo(d, line, w, st).store.leaseSeq <= Decimal.TWO_TO_THE_64 + 1
    requires WorldSpares(w, held + Granted([ReplyTo(d, line, w, st).response]))
    ensures var o := ReplyTo(d, line, w, st);
            && Ledger(held, [o.response]) <= o.store.leases.Keys
            && Ledger(held, [o.response]) <= held + Granted([o.response])
  {
    var r := ReplyTo(d, line, w, st).response;
    LineSparesHeld(d, line, w, st, held);
    if r.reply.AttachOk? {
      assert r in [r] && r.reply.leaseId in Granted([r]);
      var body := GrantOfLine(d, line, w, st);
      GrantSurvives(body, w, st);
    }
  }

  lemma SparesFewer(w: World, many: set<string>, few: set<string>)
    requires WorldSpares(w, many) && few <= many
    ensures WorldSpares(w, few)
  {
  }

  /**
   Among other clients that remove no session and release no lease of this one, the books are safe to rely on:
   every lease that the client was granted and has not given back is live.
   */
  lemma {:induction false} LedgerAmongOthers(d: Decoders, arrivals: seq<Arrival>, st: Store, held: set<string>)
    requires Balanced(st) && WorldFits(d, arrivals) && held <= st.leases.Keys
    requires Serve(d, arrivals, st).store.leaseSeq <= Decimal.TWO_TO_THE_64
    requires forall a :: a in arrivals ==> WorldSpares(a.world, held + Granted(Serve(d, arrivals, st).responses))
    ensures Ledger(held, Serve(d, arrivals, st).responses) <= Serve(d, arrivals, st).store.leases.Keys
    decreases |arrivals|
  {
    if arrivals != [] {
      var a, rest := arrivals[0], arrivals[1..];
      assert a in arrivals;
      var before := DoAll(st, a.world.others);
      if a.line.Unreadable? {
        HeldSurvive(st, a.world.others, held);
      } else {
        var o, all := ReplyTo(d, a.line, a.world, before), Serve(d, arrivals, st);
        var ids := held + Granted(all.responses);
        assert all.responses[0] == o.response;
        assert Granted([o.response]) <= Granted(all.responses);
        ServeNeverTakesBackIds(d, rest, o.store);
        SparesFewer(a.world, ids, held + Granted([o.response]));
        LedgerRound(d, a, st, held);
        if !o.stop {
          var more, now := Serve(d, rest, o.store), Ledger(held, [o.response]);
          assert all.store == more.store && all.responses == [o.response] + more.responses;
          forall b | b in rest ensures WorldSpares(b.world, now + Granted(more.responses)) {
            SparesFewer(b.world, ids, now + Granted(more.responses));
          }
          LedgerAmongOthers(d, rest, o.store, now);
          LedgerCons(held, o.response, more.responses);
        }
      }
    }
  }

  lemma LedgerRound(d: Decoders, a: Arrival, st: Store, held: set<string>)
    requires a.line.Line? && Balanced(st) && OthersFit(a.world) && SpawnFits(d, a.line, a.world)
    requires held <= st.leases.Keys
    requires var o := ReplyTo(d, a.line, a.world, DoAll(st, a.world.others));
             && o.store.leaseSeq <= Decimal.TWO_TO_THE_64
             && WorldSpares(a.world, held + Granted([o.response]))
    ensures var o := ReplyTo(d, a.line, a.world, DoAll(st, a.world.others));
            && Balanced(o.store)
            && Ledger(held, [o.response]) <= o.store.leases.Keys
            && Ledger(held, [o.response]) <= held + Granted([o.response])
  {
    var before := DoAll(st, a.world.others);
    ReplyNeverTakesBackIds(d, a.line, a.world, before);
    LeasesAreConserved(st, a.world.others);
    HeldSurvive(st, a.world.others, held);
    LedgerAmidOne(d, a.line, a.world, before, held);
    ReplyKeepsBalance(d, a.line, a.world, before);
  }
}
