/** A control connection of the daemon (crates/lspee_daemon/src/lib.rs, `handle_control_connection`). */
module Control {
  import opened Wrappers
  import opened Text
  import opened RegistryTypes
  import opened RegistrySteps
  import opened RegistryAccounting
  import opened RegistryCalls
  import opened Registry
  import Memory

  const PROTOCOL_VERSION: nat := 1
  const MAX_FRAME_SIZE_BYTES: nat := 1_048_576
  const TWO_TO_THE_32: nat := 0x1_0000_0000

  // ----- Lines and envelopes

  /** `Natural` is a number that `as_u64` accepts. */
  datatype Json =
    | Null
    | Boolean(b: bool)
    | Natural(n: nat)
    | OtherNumber
    | Str(s: string)
    | Arr(items: seq<Json>)
    | Obj(fields: map<string, Json>)

  /** A line as read from the socket; one that is not UTF-8 cannot be read, one that is not JSON has none. */
  datatype Line = Unreadable | Line(bytes: nat, json: Option<Json>)

  datatype Envelope = Envelope(id: Option<string>, kind: string, payload: Json)

  function Get(raw: Json, field: string): Option<Json> {
    if raw.Obj? && field in raw.fields then Some(raw.fields[field]) else None
  }

  function IdIn(raw: Json): Option<string> {
    match Get(raw, "id")
    case Some(Str(s)) => Some(s)
    case _ => None
  }

  /** The cast to `u32` drops the upper half. */
  function VersionIn(raw: Json): Option<nat> {
    match Get(raw, "v")
    case Some(Natural(n)) => Some(n % TWO_TO_THE_32)
    case _ => None
  }

  /** Deserializing the envelope: here `v` must fit a `u32`. */
  function ParseEnvelope(raw: Json): Option<Envelope> {
    var v, id, kind, payload := Get(raw, "v"), Get(raw, "id"), Get(raw, "type"), Get(raw, "payload");
    if v.None? || !v.value.Natural? || v.value.n >= TWO_TO_THE_32 then None
    else if id.Some? && !id.value.Str? && !id.value.Null? then None
    else if kind.None? || !kind.value.Str? || payload.None? then None
    else Some(Envelope(IdIn(raw), kind.value.s, payload.value))
  }

  // ----- Requests and responses

  datatype StreamMode = Dedicated | MuxControl

  datatype AttachBody = AttachBody(key: SessionKey, clientKind: Option<ClientKind>,
                                   streamModes: Option<seq<StreamMode>>)

  /** How the payload of each type of request is read. */
  datatype Decoders = Decoders(
    attach: Json -> Option<AttachBody>,
    release: Json -> Option<string>,
    call: Json -> Option<string>,
    notify: Json -> Option<string>,
    shutdown: Json -> bool
  )

  datatype MemoryStats = MemoryStats(totalBytes: nat, budgets: Memory.Settings)

  datatype Reply =
    | Refused(code: string, retryable: bool)
    | AttachOk(leaseId: string, mode: StreamMode)
    | ReleaseOk(leaseId: string, refCount: nat)
    | CallOk(leaseId: string)
    | NotifyOk(leaseId: string)
    | StatsOk(sessions: nat, leases: nat, counters: Counters, uptimeMs: nat, memory: MemoryStats)
    | ShutdownOk

  datatype Response = Response(id: Option<string>, reply: Reply)

  const FRAME_TOO_LARGE := Refused("E_FRAME_TOO_LARGE", false)
  const BAD_MESSAGE := Refused("E_BAD_MESSAGE", false)
  const UNSUPPORTED_VERSION := Refused("E_UNSUPPORTED_VERSION", false)
  const UNKNOWN_TYPE := Refused("E_UNKNOWN_TYPE", false)
  const INVALID_SESSION_KEY := Refused("E_INVALID_SESSION_KEY", false)
  const SPAWN_FAILED := Refused("E_SESSION_SPAWN_FAILED", true)
  const INTERNAL := Refused("E_INTERNAL", true)
  const LEASE_NOT_FOUND := Refused("E_LEASE_NOT_FOUND", false)

  /**
   What the outside does while one line is served.  Other tasks call `others` before it, `meanwhile` between an
   attach and the look-up of its session or while a server works on a call, and `later` while the endpoint of a
   dedicated stream is made.
   */
  datatype World = World(
    others: seq<Call>,
    meanwhile: seq<Call>,
    later: seq<Call>,
    now: nat,
    spawned: Option<SessionHandle>,
    endpoint: bool,
    answeredAt: Option<nat>,
    failure: string,
    uptimeMs: nat,
    memory: MemoryStats
  )

  datatype Outcome = Outcome(store: Store, response: Response, stop: bool, shutdown: bool)

  predicate IsLspIdChar(c: char) {
    'a' <= c <= 'z' || '0' <= c <= '9' || c == '-' || c == '_' || c == '.'
  }

  predicate ValidSessionKey(key: SessionKey) {
    && key.root != "" && key.root[0] == '/'
    && !IsBlank(key.configHash)
    && key.lspId != "" && (forall i :: 0 <= i < |key.lspId| ==> IsLspIdChar(key.lspId[i]))
  }

  function PreferredStreamMode(modes: Option<seq<StreamMode>>): StreamMode {
    if modes.Some? && Dedicated in modes.value then Dedicated else MuxControl
  }

  function AttachReply(body: Option<AttachBody>, w: World, st: Store): (Store, Reply) {
    if body.None? then (st, BAD_MESSAGE)
    else if !ValidSessionKey(body.value.key) then (st, INVALID_SESSION_KEY)
    else
      var key, mode := body.value.key, PreferredStreamMode(body.value.streamModes);
      var attached := AcquireCall(st, key, body.value.clientKind, w.spawned, w.now);
      if AcquireSucceeds(st, key, w.spawned)
      then GrantReply(key, LeaseName(st.leaseSeq), mode, w, DoAll(attached, w.meanwhile))
      else (attached, SPAWN_FAILED)
  }

  /** The rest of an attach that got a lease: the session may be gone by now, or its stream cannot be made. */
  function GrantReply(key: SessionKey, lease: string, mode: StreamMode, w: World, st: Store): (Store, Reply) {
    if key !in st.sessions then (st, INTERNAL)
    else if mode == MuxControl then (st, AttachOk(lease, mode))
    else
      var made := DoAll(st, w.later);
      if w.endpoint then (made, AttachOk(lease, mode)) else (ReleaseCall(made, lease, w.now), INTERNAL)
  }

  function ReleaseReply(id: Option<string>, w: World, st: Store): (Store, Reply) {
    if id.None? then (st, BAD_MESSAGE)
    else if id.value !in st.leases then (st, LEASE_NOT_FOUND)
    else
      var after := ReleaseCall(st, id.value, w.now);
      (after, ReleaseOk(id.value, RefCountOf(after, st.leases[id.value].key)))
  }

  predicate Contains(s: string, part: string) {
    part <= s || (s != "" && Contains(s[1..], part))
  }

  /** The error code of a failed call or notify is read off the text of the error. */
  function ErrorCode(message: string, isCall: bool): string {
    if Contains(message, EVICTED_MEMORY) then EVICTED_MEMORY
    else if Contains(message, "terminating") then "E_SESSION_RESTARTING"
    else if isCall && (Contains(message, "timeout") || Contains(message, "timed out")) then "E_TIMEOUT"
    else "E_INTERNAL"
  }

  function EndingMessage(notice: Option<Notice>): string {
    match notice
    case Some(n) => n.code + ": " + n.message
    case None => "session is terminating"
  }

  function ForwardReply(id: Option<string>, isCall: bool, w: World, st: Store): (Store, Reply) {
    if id.None? then (st, BAD_MESSAGE)
    else
      var (touched, reached) := ReachCall(st, id.value, w.now);
      match reached
      case Missing => (touched, LEASE_NOT_FOUND)
      case Ending(notice) => (touched, Refused(ErrorCode(EndingMessage(notice), isCall), true))
      case Ready(key) => AnswerReply(id.value, key, isCall, w, DoAll(touched, w.meanwhile))
  }

  /** The rest of a call or notify whose request was handed to the server. */
  function AnswerReply(id: string, key: SessionKey, isCall: bool, w: World, st: Store): (Store, Reply) {
    match w.answeredAt
    case None => (st, Refused(ErrorCode(w.failure, isCall), true))
    case Some(now) => (TouchCall(st, key, now), if isCall then CallOk(id) else NotifyOk(id))
  }

  function StatsReply(w: World, st: Store): Reply {
    StatsOk(|st.sessions|, |st.leases|, st.counters, w.uptimeMs, w.memory)
  }

  predicate AcceptsShutdown(d: Decoders, req: Envelope) {
    req.kind == "Shutdown" && d.shutdown(req.payload)
  }

  function DispatchReply(d: Decoders, req: Envelope, w: World, st: Store): (Store, Reply) {
    if req.kind == "Attach" then AttachReply(d.attach(req.payload), w, st)
    else if req.kind == "Release" then ReleaseReply(d.release(req.payload), w, st)
    else if req.kind == "Call" then ForwardReply(d.call(req.payload), true, w, st)
    else if req.kind == "Notify" then ForwardReply(d.notify(req.payload), false, w, st)
    else if req.kind == "Stats" then (st, StatsReply(w, st))
    else if req.kind == "Shutdown" then (st, if d.shutdown(req.payload) then ShutdownOk else BAD_MESSAGE)
    else (st, UNKNOWN_TYPE)
  }

  function Dispatch(d: Decoders, req: Envelope, w: World, st: Store): Outcome {
    var (after, reply) := DispatchReply(d, req, w, st);
    Outcome(after, Response(req.id, reply), AcceptsShutdown(d, req), AcceptsShutdown(d, req))
  }

  function Refusal(st: Store, id: Option<string>, reply: Reply, stop: bool): Outcome {
    Outcome(st, Response(id, reply), stop, false)
  }

  /** One round of the connection's loop. */
  function ReplyTo(d: Decoders, line: Line, w: World, st: Store): Outcome
    requires line.Line?
  {
    if line.bytes > MAX_FRAME_SIZE_BYTES then Refusal(st, None, FRAME_TOO_LARGE, true)
    else if line.json.None? then Refusal(st, None, BAD_MESSAGE, false)
    else
      var raw := line.json.value;
      if VersionIn(raw) != Some(PROTOCOL_VERSION) then Refusal(st, IdIn(raw), UNSUPPORTED_VERSION, true)
      else if ParseEnvelope(raw).None? then Refusal(st, None, BAD_MESSAGE, false)
      else Dispatch(d, ParseEnvelope(raw).value, w, st)
  }

  datatype Arrival = Arrival(line: Line, world: World)

  datatype Served = Served(store: Store, responses: seq<Response>, shutdown: bool, failed: bool)

  function Prefixed(earlier: seq<Response>, s: Served): Served {
    s.(responses := earlier + s.responses)
  }

  function Serve(d: Decoders, arrivals: seq<Arrival>, st: Store): Served
    decreases |arrivals|
  {
    if arrivals == [] then Served(st, [], false, false)
    else
      var Arrival(line, w) := arrivals[0];
      var before := DoAll(st, w.others);
      if line.Unreadable? then Served(before, [], false, true)
      else
        var o := ReplyTo(d, line, w, before);
        if o.stop then Served(o.store, [o.response], o.shutdown, false)
        else Prefixed([o.response], Serve(d, arrivals[1..], o.store))
  }

  lemma PrefixedTwice(earlier: seq<Response>, r: Response, s: Served)
    ensures Prefixed(earlier, Prefixed([r], s)) == Prefixed(earlier + [r], s)
  {
    assert earlier + ([r] + s.responses) == (earlier + [r]) + s.responses;
  }

  /** The line passes every check before the dispatch. */
  predicate IsRequest(line: Line) {
    && line.Line? && line.bytes <= MAX_FRAME_SIZE_BYTES && line.json.Some?
    && VersionIn(line.json.value) == Some(PROTOCOL_VERSION) && ParseEnvelope(line.json.value).Some?
  }

  /** The registry calls made from the start of an attach to its response, by the attach and by others. */
  ghost function AttachCalls(body: Option<AttachBody>, w: World, st: Store): seq<Call> {
    if body.None? || !ValidSessionKey(body.value.key) then []
    else
      var key, mode := body.value.key, PreferredStreamMode(body.value.streamModes);
      var attach := Attach(key, body.value.clientKind, w.spawned, w.now);
      if !AcquireSucceeds(st, key, w.spawned) then [attach]
      else if key !in DoAll(Do(st, attach), w.meanwhile).sessions || mode == MuxControl then [attach] + w.meanwhile
      else [attach] + w.meanwhile + w.later + if w.endpoint then [] else [Detach(LeaseName(st.leaseSeq), w.now)]
  }

  ghost function ForwardCalls(id: Option<string>, w: World, st: Store): seq<Call> {
    if id.None? then []
    else
      var reached := ReachCall(st, id.value, w.now).1;
      [Send(id.value, w.now, None)] +
      if !reached.Ready? then []
      else w.meanwhile + if w.answeredAt.Some? then [Refresh(reached.key, w.answeredAt.value)] else []
  }

  /** The registry calls made while one line is served, by the line and by others. */
  ghost function ReplyCalls(d: Decoders, line: Line, w: World, st: Store): seq<Call>
    requires line.Line?
  {
    if !IsRequest(line) then []
    else
      var req := ParseEnvelope(line.json.value).value;
      if req.kind == "Attach" then AttachCalls(d.attach(req.payload), w, st)
      else if req.kind == "Release" && d.release(req.payload).Some? then [Detach(d.release(req.payload).value, w.now)]
      else if req.kind == "Call" then ForwardCalls(d.call(req.payload), w, st)
      else if req.kind == "Notify" then ForwardCalls(d.notify(req.payload), w, st)
      else []
  }

  lemma OneCall(st: Store, c: Call)
    ensures DoAll(st, [c]) == Do(st, c)
  {
    assert [c][1..] == [];
  }

  lemma AttachIsCalls(body: Option<AttachBody>, w: World, st: Store)
    ensures AttachReply(body, w, st).0 == DoAll(st, AttachCalls(body, w, st))
  {
    if body.Some? && ValidSessionKey(body.value.key) {
      var key, mode := body.value.key, PreferredStreamMode(body.value.streamModes);
      var attach := Attach(key, body.value.clientKind, w.spawned, w.now);
      OneCall(st, attach);
      DoAllConcat(st, [attach], w.meanwhile);
      DoAllConcat(st, [attach] + w.meanwhile, w.later);
      DoAllSnoc(st, [attach] + w.meanwhile + w.later, Detach(LeaseName(st.leaseSeq), w.now));
      assert [attach] + w.meanwhile + w.later + [] == [attach] + w.meanwhile + w.later;
    }
  }

  lemma ForwardIsCalls(id: Option<string>, isCall: bool, w: World, st: Store)
    ensures ForwardReply(id, isCall, w, st).0 == DoAll(st, ForwardCalls(id, w, st))
  {
    if id.Some? {
      var send, reached := Send(id.value, w.now, None), ReachCall(st, id.value, w.now).1;
      OneCall(st, send);
      assert Do(st, send) == ReachCall(st, id.value, w.now).0;
      assert [send] + [] == [send] && w.meanwhile + [] == w.meanwhile;
      if reached.Ready? {
        DoAllConcat(st, [send], w.meanwhile);
        if w.answeredAt.Some? {
          var refresh := Refresh(reached.key, w.answeredAt.value);
          DoAllSnoc(st, [send] + w.meanwhile, refresh);
          assert [send] + (w.meanwhile + [refresh]) == [send] + w.meanwhile + [refresh];
        }
      }
    }
  }

  /** The registry sees nothing of a line but whole calls; two at most are the line's own. */
  lemma ReplyIsCalls(d: Decoders, line: Line, w: World, st: Store)
    requires line.Line?
    ensures |ReplyCalls(d, line, w, st)| <= 2 + |w.meanwhile| + |w.later|
    ensures ReplyTo(d, line, w, st).store == DoAll(st, ReplyCalls(d, line, w, st))
  {
    if IsRequest(line) {
      var req := ParseEnvelope(line.json.value).value;
      if req.kind == "Attach" {
        AttachIsCalls(d.attach(req.payload), w, st);
      } else if req.kind == "Release" && d.release(req.payload).Some? {
        OneCall(st, Detach(d.release(req.payload).value, w.now));
      } else if req.kind == "Call" {
        ForwardIsCalls(d.call(req.payload), true, w, st);
      } else if req.kind == "Notify" {
        ForwardIsCalls(d.notify(req.payload), false, w, st);
      }
    }
  }

  lemma ReplyKeepsCalm(d: Decoders, line: Line, w: World, st: Store)
    requires Calm(st) && line.Line?
    ensures Calm(ReplyTo(d, line, w, st).store)
  {
    ReplyIsCalls(d, line, w, st);
    CallsKeepCalm(st, ReplyCalls(d, line, w, st));
  }

  // ----- The connection

  class ControlConnection {
    const registry: SessionRegistry
    const decoders: Decoders
    var written: seq<Response>
    var shutdownSent: bool

    constructor (registry: SessionRegistry, decoders: Decoders)
      ensures this.registry == registry && this.decoders == decoders
      ensures written == [] && !shutdownSent
    {
      this.registry, this.decoders, written, shutdownSent := registry, decoders, [], false;
    }

    method DispatchAttach(body: Option<AttachBody>, w: World) returns (reply: Reply)
      requires Calm(registry.Contents())
      modifies registry
      ensures (registry.Contents(), reply) == AttachReply(body, w, old(registry.Contents()))
    {
      if body.None? {
        return BAD_MESSAGE;
      }
      var key := body.value.key;
      if !ValidSessionKey(key) {
        return INVALID_SESSION_KEY;
      }
      var mode := PreferredStreamMode(body.value.streamModes);
      if key in registry.spawnGates {
        GateIsFree(registry.Contents(), key);
      }
      CallKeepsCalm(registry.Contents(), Attach(key, body.value.clientKind, w.spawned, w.now));
      var lease := registry.AcquireOrSpawn(key, body.value.clientKind, w.spawned, w.now);
      if lease.None? {
        return SPAWN_FAILED;
      }
      registry.PerformAll(w.meanwhile);
      reply := Grant(key, lease.value, mode, w);
    }

    method Grant(key: SessionKey, lease: string, mode: StreamMode, w: World) returns (reply: Reply)
      requires Calm(registry.Contents())
      modifies registry
      ensures (registry.Contents(), reply) == GrantReply(key, lease, mode, w, old(registry.Contents()))
    {
      if key !in registry.sessions {
        return INTERNAL;
      }
      if mode == Dedicated {
        registry.PerformAll(w.later);
        if !w.endpoint {
          var _ := registry.ReleaseByLeaseId(lease, w.now);
          return INTERNAL;
        }
      }
      return AttachOk(lease, mode);
    }

    method DispatchRelease(id: Option<string>, w: World) returns (reply: Reply)
      modifies registry
      ensures (registry.Contents(), reply) == ReleaseReply(id, w, old(registry.Contents()))
    {
      if id.None? {
        return BAD_MESSAGE;
      }
      var left := registry.ReleaseByLeaseId(id.value, w.now);
      reply := if left.Some? then ReleaseOk(id.value, left.value) else LEASE_NOT_FOUND;
    }

    /** `dispatch_call` and `dispatch_notify`. */
    method DispatchForward(id: Option<string>, isCall: bool, w: World) returns (reply: Reply)
      requires Calm(registry.Contents())
      modifies registry
      ensures (registry.Contents(), reply) == ForwardReply(id, isCall, w, old(registry.Contents()))
    {
      if id.None? {
        return BAD_MESSAGE;
      }
      CallKeepsCalm(registry.Contents(), Send(id.value, w.now, None));
      var reached := registry.Reach(id.value, w.now);
      match reached
      case Missing => return LEASE_NOT_FOUND;
      case Ending(notice) => return Refused(ErrorCode(EndingMessage(notice), isCall), true);
      case Ready(key) =>
        registry.PerformAll(w.meanwhile);
        if w.answeredAt.None? {
          return Refused(ErrorCode(w.failure, isCall), true);
        }
        registry.Touch(key, w.answeredAt.value);
        return if isCall then CallOk(id.value) else NotifyOk(id.value);
    }

    method DispatchRequest(req: Envelope, w: World) returns (response: Response, shutdown: bool)
      requires Calm(registry.Contents())
      modifies registry, this`shutdownSent
      ensures var o := Dispatch(decoders, req, w, old(registry.Contents()));
              registry.Contents() == o.store && response == o.response && shutdown == o.shutdown
      ensures shutdownSent == (old(shutdownSent) || shutdown)
    {
      var reply;
      shutdown := false;
      if req.kind == "Attach" {
        reply := DispatchAttach(decoders.attach(req.payload), w);
      } else if req.kind == "Release" {
        reply := DispatchRelease(decoders.release(req.payload), w);
      } else if req.kind == "Call" {
        reply := DispatchForward(decoders.call(req.payload), true, w);
      } else if req.kind == "Notify" {
        reply := DispatchForward(decoders.notify(req.payload), false, w);
      } else if req.kind == "Stats" {
        reply := StatsOk(|registry.sessions|, |registry.leases|, registry.counters, w.uptimeMs, w.memory);
      } else if req.kind == "Shutdown" {
        if decoders.shutdown(req.payload) {
          shutdownSent, shutdown := true, true;
          reply := ShutdownOk;
        } else {
          reply := BAD_MESSAGE;
        }
      } else {
        reply := UNKNOWN_TYPE;
      }
      response := Response(req.id, reply);
    }

    /** The body of the loop; `stop` when the connection is to be closed. */
    method Round(line: Line, w: World) returns (stop: bool)
      requires line.Line? && Calm(registry.Contents())
      modifies this, registry
      ensures var o := ReplyTo(decoders, line, w, old(registry.Contents()));
              && registry.Contents() == o.store && stop == o.stop
              && written == old(written) + [o.response]
              && shutdownSent == (old(shutdownSent) || o.shutdown)
    {
      if line.bytes > MAX_FRAME_SIZE_BYTES {
        written := written + [Response(None, FRAME_TOO_LARGE)];
        return true;
      }
      if line.json.None? {
        written := written + [Response(None, BAD_MESSAGE)];
        return false;
      }
      var raw := line.json.value;
      var id, version := IdIn(raw), VersionIn(raw);
      if version != Some(PROTOCOL_VERSION) {
        written := written + [Response(id, UNSUPPORTED_VERSION)];
        return true;
      }
      var req := ParseEnvelope(raw);
      if req.None? {
        written := written + [Response(None, BAD_MESSAGE)];
        return false;
      }
      var response, shutdown := DispatchRequest(req.value, w);
      written := written + [response];
      return shutdown;
    }

    /** Serves the lines one by one; `failed` when one cannot be read. */
    method Handle(arrivals: seq<Arrival>) returns (failed: bool)
      requires Calm(registry.Contents())
      modifies this, registry
      ensures var s := Serve(decoders, arrivals, old(registry.Contents()));
              && written == old(written) + s.responses && registry.Contents() == s.store
              && shutdownSent == (old(shutdownSent) || s.shutdown) && failed == s.failed
    {
      var i := 0;
      assert arrivals[0..] == arrivals;
      while i < |arrivals|
        invariant i <= |arrivals| && Calm(registry.Contents())
        invariant shutdownSent == old(shutdownSent)
        invariant Prefixed(written, Serve(decoders, arrivals[i..], registry.Contents())) ==
                  Prefixed(old(written), Serve(decoders, arrivals, old(registry.Contents())))
        decreases |arrivals| - i
      {
        var Arrival(line, w) := arrivals[i];
        assert arrivals[i..][1..] == arrivals[i + 1..];
        registry.PerformAll(w.others);
        if line.Unreadable? {
          return true;
        }
        ghost var before, earlier := registry.Contents(), written;
        ReplyKeepsCalm(decoders, line, w, before);
        var stop := Round(line, w);
        if stop {
          return false;
        }
        i := i + 1;
        PrefixedTwice(earlier, ReplyTo(decoders, line, w, before).response,
                      Serve(decoders, arrivals[i..], registry.Contents()));
      }
      return false;
    }
  }
}
