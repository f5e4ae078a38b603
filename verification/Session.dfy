/** The protocol session above framing: requests wait for their response while
    other messages queue up, and every server request is refused on the spot. */
module Session {
  import opened Common
  import opened Protocol

  /** Integers and strings are usable request ids; booleans and the rest are not. */
  datatype RequestId = IntId(n: int) | StringId(s: string)

  datatype ReplyBody = Result(value: string) | ErrorReply | MalformedReply

  datatype ServerMethod = KnownMethod(kind: RequestKind, itemIsCall: bool) | Unfulfillable | UnknownServerMethod

  /** Decoded frames, told apart the way `_prepare_incoming` does.  The hook check
      looks the method up in a set before anything else happens, which raises when
      the method is a list or an object; `UnhashableRequest` is such a server
      request, whose other fields do not matter. */
  datatype Wire =
    | NotAnObject
    | HookActivity
    | UnhashableRequest
    | ServerRequest(id: Option<RequestId>, called: ServerMethod,
                    threadId: Field, turnId: Field, itemId: Field, callId: Field)
    | ServerResolved(requestId: Option<RequestId>, threadId: Field)
    | Response(replyTo: Option<RequestId>, body: ReplyBody)
    | Notice(topic: Method, params: Params)

  datatype Denial = DeclineResult | InternalError | MethodNotFound

  datatype Outgoing = Asked(requestId: int, name: string) | Refused(id: Option<RequestId>, how: Denial)

  /** Server requests refused so far, and whether each was resolved. */
  type Ledger = map<RequestId, bool>

  /** Hook activity raises on arrival, and so does a method that cannot be hashed:
      nothing is queued, refused or handed on. */
  predicate RaisesOnArrival(w: Wire) {
    w.HookActivity? || w.UnhashableRequest? || (w.Notice? && w.topic == UnknownMethod(false))
  }

  // ----------------------------------------------------------- one frame at a time

  function KindOf(m: ServerMethod): RequestKind {
    match m
    case KnownMethod(kind, _) => kind
    case Unfulfillable => OtherRequest("unfulfillable")
    case UnknownServerMethod => OtherRequest("unknown")
  }

  function DenialOf(m: ServerMethod): Denial {
    match m
    case KnownMethod(_, _) => DeclineResult
    case Unfulfillable => InternalError
    case UnknownServerMethod => MethodNotFound
  }

  /** A refused request is in order when its id is usable and new. */
  predicate DenialInOrder(ledger: Ledger, w: Wire)
    requires w.ServerRequest?
  {
    w.id.Some? && w.id.value !in ledger
  }

  /** A resolution is in order when it names a refused, unresolved request. */
  predicate ResolutionInOrder(ledger: Ledger, w: Wire)
    requires w.ServerResolved?
  {
    w.requestId.Some? && w.requestId.value in ledger && !ledger[w.requestId.value]
  }

  /** The message handed on, unless the frame raises. */
  function Prepared(ledger: Ledger, w: Wire): Message
    requires !RaisesOnArrival(w)
  {
    match w
    case NotAnObject => Malformed
    case ServerRequest(_, called, threadId, turnId, itemId, callId) =>
      Denied(KindOf(called), threadId, turnId,
             if called.KnownMethod? && called.itemIsCall then callId else itemId, DenialInOrder(ledger, w))
    case ServerResolved(_, threadId) => Resolution(threadId, ResolutionInOrder(ledger, w))
    case Response(_, _) => WithoutMethod
    case Notice(topic, params) => Notification(topic, params)
  }

  function LedgerAfter(ledger: Ledger, w: Wire): Ledger {
    match w
    case ServerRequest(id, _, _, _, _, _) => if DenialInOrder(ledger, w) then ledger[id.value := false] else ledger
    case ServerResolved(requestId, _) =>
      if ResolutionInOrder(ledger, w) then ledger[requestId.value := true] else ledger
    case _ => ledger
  }

  function RepliesTo(w: Wire): seq<Outgoing> {
    if w.ServerRequest? then [Refused(w.id, DenialOf(w.called))] else []
  }

  // -------------------------------------------------------------- a whole wire

  function LedgerOf(ws: seq<Wire>): Ledger {
    if ws == [] then map[] else LedgerAfter(LedgerOf(ws[..|ws| - 1]), ws[|ws| - 1])
  }

  ghost predicate RaiseFree(ws: seq<Wire>) {
    forall i :: 0 <= i < |ws| ==> !RaisesOnArrival(ws[i])
  }

  function MessageAt(ws: seq<Wire>, i: nat): Message
    requires i < |ws| && !RaisesOnArrival(ws[i])
  {
    Prepared(LedgerOf(ws[..i]), ws[i])
  }

  function Replies(ws: seq<Wire>): seq<Outgoing> {
    if ws == [] then [] else Replies(ws[..|ws| - 1]) + RepliesTo(ws[|ws| - 1])
  }

  /** The consumed messages that answered no request, in wire order. */
  function Unanswering(ws: seq<Wire>, answering: set<nat>): seq<Message>
    requires RaiseFree(ws)
  {
    if ws == [] then []
    else
      var n := |ws| - 1;
      assert RaiseFree(ws[..n]);
      Unanswering(ws[..n], answering) + if n in answering then [] else [MessageAt(ws, n)]
  }

  lemma LedgerSnoc(ws: seq<Wire>, w: Wire)
    ensures LedgerOf(ws + [w]) == LedgerAfter(LedgerOf(ws), w)
    ensures Replies(ws + [w]) == Replies(ws) + RepliesTo(w)
  {
    assert (ws + [w])[..|ws|] == ws;
  }

  lemma RaiseFreeSnoc(ws: seq<Wire>, w: Wire)
    requires RaiseFree(ws) && !RaisesOnArrival(w)
    ensures RaiseFree(ws + [w])
  { }

  lemma OtherFrame(ledger: Ledger, w: Wire)
    requires !w.ServerRequest? && !w.ServerResolved?
    ensures LedgerAfter(ledger, w) == ledger && RepliesTo(w) == []
  { }

  lemma UnansweringSnoc(ws: seq<Wire>, w: Wire, answering: set<nat>)
    requires RaiseFree(ws) && !RaisesOnArrival(w)
    ensures RaiseFree(ws + [w])
    ensures Unanswering(ws + [w], answering)
            == Unanswering(ws, answering) + if |ws| in answering then [] else [Prepared(LedgerOf(ws), w)]
  {
    assert (ws + [w])[..|ws|] == ws;
  }

  /** Positions past the end do not matter. */
  lemma {:induction false} UnansweringLocal(ws: seq<Wire>, a: set<nat>, b: set<nat>)
    requires RaiseFree(ws) && forall i :: 0 <= i < |ws| ==> (i in a <==> i in b)
    ensures Unanswering(ws, a) == Unanswering(ws, b)
  {
    if ws != [] {
      assert RaiseFree(ws[..|ws| - 1]);
      UnansweringLocal(ws[..|ws| - 1], a, b);
    }
  }

  // ------------------------------------------------- the same, said of the wire alone

  /** A server request with this id came before. */
  ghost predicate Requested(ws: seq<Wire>, id: RequestId) {
    exists i :: 0 <= i < |ws| && ws[i].ServerRequest? && ws[i].id == Some(id)
  }

  /** A server request with this id came before, and after it a resolution of it. */
  ghost predicate Resolved(ws: seq<Wire>, id: RequestId) {
    exists j :: 0 <= j < |ws| && ws[j].ServerResolved? && ws[j].requestId == Some(id) && Requested(ws[..j], id)
  }

  /** `m` is what the frame `w`, read after `earlier`, is handed on as: a notice
      unchanged; a server request with its own kind, thread and turn, the call it names
      if it is about a call and else the item, in order when its id is usable and new;
      a resolution with its own thread, in order when it is the first one of an earlier
      request.  Nothing is handed on for a frame that raises. */
  ghost predicate HandsOn(earlier: seq<Wire>, w: Wire, m: Message) {
    match w
    case NotAnObject => m == Malformed
    case Response(_, _) => m == WithoutMethod
    case Notice(topic, params) => topic != UnknownMethod(false) && m == Notification(topic, params)
    case ServerRequest(id, called, threadId, turnId, itemId, callId) =>
      && m.Denied? && m.threadId == threadId && m.turnId == turnId
      && (m.orderingValid <==> id.Some? && !Requested(earlier, id.value))
      && (match called
          case KnownMethod(kind, itemIsCall) =>
            m.kind == kind && (if itemIsCall then m.itemReference == callId else m.itemReference == itemId)
          case Unfulfillable => m.kind == OtherRequest("unfulfillable") && m.itemReference == itemId
          case UnknownServerMethod => m.kind == OtherRequest("unknown") && m.itemReference == itemId)
    case ServerResolved(requestId, threadId) =>
      && m.Resolution? && m.threadId == threadId
      && (m.orderingValid <==>
            requestId.Some? && Requested(earlier, requestId.value) && !Resolved(earlier, requestId.value))
    case HookActivity => false
    case UnhashableRequest => false
  }

  /** The ledger holds the ids requested so far, with the resolved ones marked. */
  lemma {:induction false} LedgerMeans(ws: seq<Wire>, id: RequestId)
    ensures id in LedgerOf(ws) <==> Requested(ws, id)
    ensures id in LedgerOf(ws) ==> (LedgerOf(ws)[id] <==> Resolved(ws, id))
  {
    if ws != [] {
      var n := |ws| - 1;
      var h, w := ws[..n], ws[n];
      LedgerMeans(h, id);
      RequestedSnoc(h, w, id);
      assert ws == h + [w];
    }
  }

  lemma RequestedSnoc(h: seq<Wire>, w: Wire, id: RequestId)
    ensures Requested(h + [w], id) <==> Requested(h, id) || (w.ServerRequest? && w.id == Some(id))
    ensures Resolved(h + [w], id) <==>
              Resolved(h, id) || (w.ServerResolved? && w.requestId == Some(id) && Requested(h, id))
  {
    var g := h + [w];
    assert g[|h|] == w && g[..|h|] == h;
    if i :| 0 <= i < |h| && h[i].ServerRequest? && h[i].id == Some(id) {
      assert g[i] == h[i];
    }
    if j :| 0 <= j < |h| && h[j].ServerResolved? && h[j].requestId == Some(id) && Requested(h[..j], id) {
      assert g[j] == h[j] && g[..j] == h[..j];
    }
    if j :| 0 <= j < |g| && g[j].ServerResolved? && g[j].requestId == Some(id) && Requested(g[..j], id) {
      if j < |h| { assert g[j] == h[j] && g[..j] == h[..j]; }
    }
  }

  lemma PreparedHandsOn(ws: seq<Wire>, w: Wire)
    requires !RaisesOnArrival(w)
    ensures HandsOn(ws, w, Prepared(LedgerOf(ws), w))
  {
    hide LedgerOf, Requested, Resolved;
    if w.ServerRequest? && w.id.Some? { LedgerMeans(ws, w.id.value); }
    if w.ServerResolved? && w.requestId.Some? { LedgerMeans(ws, w.requestId.value); }
  }

  /** A frame is handed on as one message, unless it raises. */
  lemma HandedOnIsPrepared(ws: seq<Wire>, w: Wire, m: Message)
    ensures HandsOn(ws, w, m) <==> !RaisesOnArrival(w) && m == Prepared(LedgerOf(ws), w)
  {
    hide LedgerOf, Requested, Resolved;
    if !RaisesOnArrival(w) { PreparedHandsOn(ws, w); }
  }

  /** The positions that `ms` relays, in increasing order: all but the answering ones. */
  ghost predicate RelayedAt(ws: seq<Wire>, answering: set<nat>, ms: seq<Message>, ps: seq<nat>) {
    && |ps| == |ms|
    && (forall a, b :: 0 <= a < b < |ps| ==> ps[a] < ps[b])
    && (forall i: nat :: i in ps <==> i < |ws| && i !in answering)
    && (forall a :: 0 <= a < |ps| ==> ps[a] < |ws| && HandsOn(ws[..ps[a]], ws[ps[a]], ms[a]))
  }

  /** Every frame that answers no request is handed on once, in wire order. */
  ghost predicate Relays(ws: seq<Wire>, answering: set<nat>, ms: seq<Message>) {
    exists ps :: RelayedAt(ws, answering, ms, ps)
  }

  lemma {:induction false} UnansweringRelays(ws: seq<Wire>, answering: set<nat>)
    requires RaiseFree(ws)
    ensures Relays(ws, answering, Unanswering(ws, answering))
  {
    hide LedgerOf, Prepared, HandsOn;
    if ws == [] {
      assert RelayedAt([], answering, [], []);
    } else {
      var n := |ws| - 1;
      assert RaiseFree(ws[..n]);
      UnansweringRelays(ws[..n], answering);
      var ms := Unanswering(ws[..n], answering);
      var ps :| RelayedAt(ws[..n], answering, ms, ps);
      assert ms + [] == ms;
      if n in answering {
        RelayedOn(ws, answering, ms, ps);
      } else {
        PreparedHandsOn(ws[..n], ws[n]);
        RelayedOn(ws, answering, ms, ps);
        assert RelayedAt(ws, answering, ms + [MessageAt(ws, n)], ps + [n]);
      }
    }
  }

  lemma RelayedOn(ws: seq<Wire>, answering: set<nat>, ms: seq<Message>, ps: seq<nat>)
    requires ws != [] && RelayedAt(ws[..|ws| - 1], answering, ms, ps)
    ensures forall a :: 0 <= a < |ps| ==> ps[a] < |ws| - 1 && HandsOn(ws[..ps[a]], ws[ps[a]], ms[a])
    ensures |ws| - 1 in answering ==> RelayedAt(ws, answering, ms, ps)
  {
    hide HandsOn;
    var h := ws[..|ws| - 1];
    forall a | 0 <= a < |ps| ensures ps[a] < |h| && HandsOn(ws[..ps[a]], ws[ps[a]], ms[a]) {
      assert h[..ps[a]] == ws[..ps[a]] && h[ps[a]] == ws[ps[a]];
    }
  }

  // ------------------------------------------------------------- ledger theorems

  lemma {:induction false} LedgerGrows(ws: seq<Wire>, i: nat, id: RequestId)
    requires i <= |ws|
    ensures id in LedgerOf(ws[..i]) ==> id in LedgerOf(ws) && (LedgerOf(ws[..i])[id] ==> LedgerOf(ws)[id])
    decreases |ws|
  {
    if i == |ws| {
      assert ws[..i] == ws;
    } else {
      var n := |ws| - 1;
      assert ws[..n][..i] == ws[..i];
      LedgerGrows(ws[..n], i, id);
    }
  }

  lemma LedgerStep(ws: seq<Wire>, i: nat)
    requires i < |ws|
    ensures LedgerOf(ws[..i + 1]) == LedgerAfter(LedgerOf(ws[..i]), ws[i])
  {
    assert ws[..i + 1][..i] == ws[..i];
  }

  lemma {:induction false} LedgerOrigin(ws: seq<Wire>, id: RequestId) returns (i: nat)
    requires id in LedgerOf(ws)
    ensures i < |ws| && ws[i].ServerRequest? && ws[i].id == Some(id) && DenialInOrder(LedgerOf(ws[..i]), ws[i])
  {
    var n := |ws| - 1;
    if id in LedgerOf(ws[..n]) {
      i := LedgerOrigin(ws[..n], id);
      assert ws[..n][..i] == ws[..i];
    } else {
      i := n;
    }
  }

  /** A server-request id is validly resolved at most once. */
  lemma ResolvedAtMostOnce(ws: seq<Wire>, i: nat, j: nat)
    requires i < j < |ws| && ws[i].ServerResolved? && ws[j].ServerResolved? && ws[i].requestId == ws[j].requestId
    requires ResolutionInOrder(LedgerOf(ws[..i]), ws[i])
    ensures !ResolutionInOrder(LedgerOf(ws[..j]), ws[j])
  {
    LedgerStep(ws, i);
    assert ws[..j][..i + 1] == ws[..i + 1];
    LedgerGrows(ws[..j], i + 1, ws[i].requestId.value);
  }

  /** And only after its refusal. */
  lemma ResolvedAfterDenial(ws: seq<Wire>, j: nat) returns (i: nat)
    requires j < |ws| && ws[j].ServerResolved? && ResolutionInOrder(LedgerOf(ws[..j]), ws[j])
    ensures i < j && ws[i].ServerRequest? && ws[i].id == ws[j].requestId && DenialInOrder(LedgerOf(ws[..i]), ws[i])
  {
    i := LedgerOrigin(ws[..j], ws[j].requestId.value);
    assert ws[..j][..i] == ws[..i];
  }

  /** An id is refused in order at most once: reusing it is out of order. */
  lemma DeniedAtMostOnce(ws: seq<Wire>, i: nat, j: nat)
    requires i < j < |ws| && ws[i].ServerRequest? && ws[j].ServerRequest? && ws[i].id == ws[j].id
    requires DenialInOrder(LedgerOf(ws[..i]), ws[i])
    ensures !DenialInOrder(LedgerOf(ws[..j]), ws[j])
  {
    LedgerStep(ws, i);
    assert ws[..j][..i + 1] == ws[..i + 1];
    LedgerGrows(ws[..j], i + 1, ws[i].id.value);
  }

  function CountRequests(ws: seq<Wire>): nat {
    if ws == [] then 0 else CountRequests(ws[..|ws| - 1]) + if ws[|ws| - 1].ServerRequest? then 1 else 0
  }

  /** The reply a server request is due: known methods get their declining result. */
  predicate IsReply(w: Wire, reply: Outgoing) {
    && w.ServerRequest? && reply.Refused? && reply.id == w.id
    && match w.called
       case KnownMethod(_, _) => reply.how == DeclineResult
       case Unfulfillable => reply.how == InternalError
       case UnknownServerMethod => reply.how == MethodNotFound
  }

  /** Every server request gets exactly one reply, in wire order, to its own id and
      of the kind its method is due. */
  lemma {:induction false} OneReplyEach(ws: seq<Wire>)
    ensures |Replies(ws)| == CountRequests(ws)
    ensures forall i :: 0 <= i < |ws| && ws[i].ServerRequest? ==>
      CountRequests(ws[..i]) < |Replies(ws)| && IsReply(ws[i], Replies(ws)[CountRequests(ws[..i])])
  {
    if ws != [] {
      var n := |ws| - 1;
      OneReplyEach(ws[..n]);
      forall i | 0 <= i < |ws| && ws[i].ServerRequest?
        ensures CountRequests(ws[..i]) < |Replies(ws)|
        ensures IsReply(ws[i], Replies(ws)[CountRequests(ws[..i])])
      {
        if i < n {
          assert ws[..n][i] == ws[i] && ws[..n][..i] == ws[..i];
        }
      }
    }
  }

  /** The wire answers request `id`: its first response is the result for that id,
      nothing that raises comes before it, and what does come fits the queue. */
  ghost predicate Answers(wire: seq<Wire>, id: int, room: int) {
    exists k :: 0 <= k < |wire| && k <= room && IsAnswer(wire[k], id) && Passable(wire[..k])
  }

  predicate IsAnswer(w: Wire, id: int) { w.Response? && w.replyTo == Some(IntId(id)) && w.body.Result? }

  ghost predicate Passable(ws: seq<Wire>) {
    forall i :: 0 <= i < |ws| ==> !RaisesOnArrival(ws[i]) && !ws[i].Response?
  }

  lemma Answered(wire: seq<Wire>, id: int, room: int, k: nat)
    requires k < |wire| && k <= room && IsAnswer(wire[k], id) && Passable(wire[..k])
    ensures Answers(wire, id, room)
  { }

  /** What stops the wait after `j` passable messages decides it. */
  lemma StoppedShort(wire: seq<Wire>, id: int, room: int, j: nat)
    requires j <= |wire| && j <= room && Passable(wire[..j])
    requires j < |wire| ==>
      RaisesOnArrival(wire[j]) || (wire[j].Response? && !IsAnswer(wire[j], id)) || (!wire[j].Response? && j == room)
    ensures !Answers(wire, id, room)
  {
    assert forall i :: 0 <= i < j ==> wire[..j][i] == wire[i] && !wire[i].Response?;
    forall k | 0 <= k < |wire| && k <= room && IsAnswer(wire[k], id) ensures !Passable(wire[..k]) {
      assert k > j;
      assert wire[..k][j] == wire[j];
    }
  }

  // ------------------------------------------------------------ imperative form

  class Channel {
    var wire: seq<Wire>
    var nextId: int
    var pending: seq<Message>
    var serverRequests: Ledger
    ghost var consumed: seq<Wire>
    ghost var answering: set<nat>
    ghost var delivered: seq<Message>
    ghost var replies: seq<Outgoing>
    ghost var failed: bool

    /** Delivered messages followed by the queue are the consumed messages that
        answered no request, in wire order; the ledger and the replies are those
        of the consumed wire. */
    ghost predicate Valid()
      reads this
    {
      && RaiseFree(consumed)
      && (forall i :: i in answering ==> i < |consumed| && consumed[i].Response?)
      && delivered + pending == Unanswering(consumed, answering)
      && serverRequests == LedgerOf(consumed)
      && replies == Replies(consumed)
      && |pending| <= MAX_PENDING_NOTIFICATIONS
    }

    constructor (wire: seq<Wire>)
      ensures Valid() && !failed && this.wire == wire && consumed == [] && answering == {} && nextId == 0
    {
      this.wire, nextId, pending, serverRequests := wire, 0, [], map[];
      consumed, answering, delivered, replies, failed := [], {}, [], [], false;
    }

    /** Read one frame and prepare it, refusing server requests on the spot. */
    method Incoming() returns (m: Option<Message>, w: Wire)
      requires RaiseFree(consumed) && serverRequests == LedgerOf(consumed) && replies == Replies(consumed)
      modifies this
      ensures RaiseFree(consumed) && serverRequests == LedgerOf(consumed) && replies == Replies(consumed)
      ensures nextId == old(nextId) && pending == old(pending) && delivered == old(delivered)
              && answering == old(answering) && failed == old(failed)
      ensures m.Some? ==>
        && old(wire) != [] && w == old(wire)[0] && wire == old(wire)[1..]
        && consumed == old(consumed) + [w] && !RaisesOnArrival(w)
        && m.value == Prepared(LedgerOf(old(consumed)), w) && HandsOn(old(consumed), w, m.value)
      ensures m.None? ==> consumed == old(consumed) && (old(wire) == [] || RaisesOnArrival(old(wire)[0]))
    {
      w := NotAnObject;
      if wire == [] { return None, w; }
      w := wire[0];
      wire := wire[1..];
      if RaisesOnArrival(w) { return None, w; }
      hide LedgerOf, Replies, Prepared, HandsOn, RaisesOnArrival, LedgerAfter, RepliesTo, RaiseFree;
      PreparedHandsOn(consumed, w);
      RaiseFreeSnoc(consumed, w);
      LedgerSnoc(consumed, w);
      m := Some(Prepared(serverRequests, w));
      if w.ServerRequest? {
        Deny(w);
      } else if w.ServerResolved? {
        Settle(w);
      } else {
        OtherFrame(serverRequests, w);
        assert replies == replies + [];
      }
      consumed := consumed + [w];
    }

    /** Refuse a server request, and remember its id if it is in order. */
    method Deny(w: Wire)
      requires w.ServerRequest?
      modifies this`serverRequests, this`replies
      ensures serverRequests == LedgerAfter(old(serverRequests), w) && replies == old(replies) + RepliesTo(w)
    {
      replies := replies + [Refused(w.id, DenialOf(w.called))];
      if DenialInOrder(serverRequests, w) {
        serverRequests := serverRequests[w.id.value := false];
      }
    }

    /** Mark a refused request as resolved if that is in order. */
    method Settle(w: Wire)
      requires w.ServerResolved?
      modifies this`serverRequests
      ensures serverRequests == LedgerAfter(old(serverRequests), w) && replies == old(replies) + RepliesTo(w)
    {
      if ResolutionInOrder(serverRequests, w) {
        serverRequests := serverRequests[w.requestId.value := true];
      }
    }

    /** `request`: a successful one consumes exactly one response, which carries
        its own id; everything else it meets is queued in order. */
    method Request(name: string) returns (r: Option<string>)
      requires Valid() && !failed
      modifies this
      ensures r.Some? ==>
        && Valid() && !failed
        && nextId == old(nextId) + 1
        && delivered == old(delivered)
        && old(pending) <= pending
        && old(consumed) < consumed
        && answering == old(answering) + {|consumed| - 1}
        && consumed[|consumed| - 1] == Response(Some(IntId(nextId)), Result(r.value))
        && (forall i :: |old(consumed)| <= i < |consumed| - 1 ==> !consumed[i].Response?)
        && Relays(consumed, answering, delivered + pending)
      ensures r.None? ==> failed
      ensures r.Some? <==> Answers(old(wire), old(nextId) + 1, MAX_PENDING_NOTIFICATIONS - |old(pending)|)
    {
      hide LedgerOf, Replies, Unanswering, Prepared, Answers, HandsOn, Relays;
      nextId := nextId + 1;
      ghost var start, room, j: nat := wire, MAX_PENDING_NOTIFICATIONS - |pending|, 0;
      assert start[0..] == start;
      while true
        invariant j <= |start| && wire == start[j..] && Passable(start[..j])
        invariant |pending| == |old(pending)| + j
        invariant Valid() && !failed
        invariant nextId == old(nextId) + 1 && delivered == old(delivered) && answering == old(answering)
        invariant old(pending) <= pending && old(consumed) <= consumed
        invariant forall i :: |old(consumed)| <= i < |consumed| ==> !consumed[i].Response?
        decreases |wire|
      {
        ghost var before := consumed;
        var m, w := Incoming();
        if m.None? {
          StoppedShort(start, nextId, room, j);
          failed := true;
          return None;
        }
        UnansweringSnoc(before, w, answering);
        assert start[j] == w && start[..j + 1] == start[..j] + [w];
        if w.Response? {
          if w.replyTo == Some(IntId(nextId)) && w.body.Result? {
            UnansweringLocal(before, answering, answering + {|before|});
            UnansweringSnoc(before, w, answering + {|before|});
            answering := answering + {|before|};
            UnansweringRelays(consumed, answering);
            assert Answers(start, nextId, room) by { Answered(start, nextId, room, j); }
            return Some(w.body.value);
          }
          StoppedShort(start, nextId, room, j);
          failed := true;
          return None;
        }
        if |pending| >= MAX_PENDING_NOTIFICATIONS {
          StoppedShort(start, nextId, room, j);
          pending, serverRequests, failed := [], map[], true;
          return None;
        }
        pending := pending + [m.value];
        j := j + 1;
      }
    }

    /** `read_message`: the oldest queued message first, else the wire. */
    method ReadMessage() returns (r: Option<Message>)
      requires Valid() && !failed
      modifies this
      ensures r.Some? ==> Valid() && !failed && delivered == old(delivered) + [r.value]
                          && answering == old(answering) && nextId == old(nextId)
      ensures old(pending) != [] ==> r == Some(old(pending)[0]) && pending == old(pending)[1..]
                                     && consumed == old(consumed)
      ensures r.Some? && old(pending) == [] ==>
                old(wire) != [] && pending == [] && consumed == old(consumed) + [old(wire)[0]] && wire == old(wire)[1..]
                && HandsOn(old(consumed), old(wire)[0], r.value)
      ensures r.Some? ==> Relays(consumed, answering, delivered + pending)
      ensures r.None? ==> failed
      ensures r.None? <==> old(pending) == [] && (old(wire) == [] || RaisesOnArrival(old(wire)[0]))
    {
      hide LedgerOf, Replies, Unanswering, Prepared, HandsOn, Relays;
      if pending != [] {
        r := Some(pending[0]);
        delivered, pending := delivered + [pending[0]], pending[1..];
        UnansweringRelays(consumed, answering);
        return;
      }
      ghost var before := consumed;
      var m, w := Incoming();
      if m.None? {
        failed := true;
        return None;
      }
      UnansweringSnoc(before, w, answering);
      delivered := delivered + [m.value];
      UnansweringRelays(consumed, answering);
      r := m;
    }

    /** `assert_quiescent`, untimed: `observable` frames arrive before the settling
        window ends, and `partial` says that an unfinished frame is left then.  It
        passes exactly when everything queued and observable is a harmless global
        notification and there is not too much of it; nothing else is drained. */
    method AssertQuiescent(observable: nat, partial: bool, harmless: Message -> bool) returns (ok: bool)
      requires Valid() && !failed && observable <= |wire|
      modifies this
      ensures ok <==>
        !partial && |old(pending)| + observable <= MAX_PENDING_NOTIFICATIONS
        && AllHarmless(old(pending), harmless)
        && HarmlessWire(old(consumed), old(wire)[..observable], observable, harmless)
      ensures ok ==> Valid() && !failed && pending == [] && wire == old(wire)[observable..]
                     && consumed == old(consumed) + old(wire)[..observable]
                     && answering == old(answering) && nextId == old(nextId)
      ensures !ok ==> failed
    {
      hide LedgerOf, Replies, Unanswering, Prepared, HandsOn, RaisesOnArrival;
      ghost var queued, frames, begun := pending, wire[..observable], consumed;
      var drained := 0;
      while pending != []
        invariant Valid() && !failed && drained + |pending| == |queued| && pending == queued[drained..]
        invariant drained <= MAX_PENDING_NOTIFICATIONS && AllHarmless(queued[..drained], harmless)
        invariant wire == old(wire) && consumed == begun && answering == old(answering) && nextId == old(nextId)
        decreases |pending|
      {
        var m := pending[0];
        delivered, pending := delivered + [m], pending[1..];
        drained := drained + 1;
        assert queued[..drained] == queued[..drained - 1] + [m];
        if drained > MAX_PENDING_NOTIFICATIONS || !harmless(m) {
          failed := true;
          assert queued[drained - 1] == m;
          return false;
        }
      }
      assert queued[..drained] == queued;
      var seen := 0;
      assert old(wire)[0..] == old(wire) && begun + frames[..0] == begun;
      while seen < observable
        invariant seen <= observable && wire == old(wire)[seen..]
        invariant Valid() && !failed && pending == [] && answering == old(answering) && nextId == old(nextId)
        invariant consumed == begun + frames[..seen] && drained == |queued| + seen <= MAX_PENDING_NOTIFICATIONS
        invariant HarmlessWire(begun, frames, seen, harmless)
        decreases observable - seen
      {
        ghost var before := consumed;
        assert wire[0] == frames[seen];
        HarmlessIsPrepared(begun, frames, seen, harmless);
        var m, w := Incoming();
        if m.None? {
          assert !HarmlessAt(begun, frames, seen, harmless);
          failed := true;
          return false;
        }
        UnansweringSnoc(before, w, answering);
        delivered := delivered + [m.value];
        drained, seen := drained + 1, seen + 1;
        if drained > MAX_PENDING_NOTIFICATIONS {
          failed := true;
          return false;
        }
        assert HarmlessAt(begun, frames, seen - 1, harmless) == harmless(m.value);
        if !harmless(m.value) {
          failed := true;
          return false;
        }
        assert frames[..seen] == frames[..seen - 1] + [w];
        assert begun + frames[..seen] == (begun + frames[..seen - 1]) + [w];
      }
      assert frames[..observable] == frames;
      if partial {
        failed := true;
        return false;
      }
      ok := true;
    }
  }

  ghost predicate AllHarmless(ms: seq<Message>, harmless: Message -> bool) {
    forall i :: 0 <= i < |ms| ==> harmless(ms[i])
  }

  /** Frame `i` is handed on as a harmless message. */
  ghost predicate HarmlessAt(begun: seq<Wire>, ws: seq<Wire>, i: nat, harmless: Message -> bool)
    requires i < |ws|
  {
    exists m :: HandsOn(begun + ws[..i], ws[i], m) && harmless(m)
  }

  lemma HarmlessIsPrepared(begun: seq<Wire>, ws: seq<Wire>, i: nat, harmless: Message -> bool)
    requires i < |ws|
    ensures HarmlessAt(begun, ws, i, harmless)
            <==> !RaisesOnArrival(ws[i]) && harmless(Prepared(LedgerOf(begun + ws[..i]), ws[i]))
  {
    hide HandsOn, LedgerOf, Prepared;
    var h, w := begun + ws[..i], ws[i];
    if m :| HandsOn(h, w, m) && harmless(m) { HandedOnIsPrepared(h, w, m); }
    if !RaisesOnArrival(w) && harmless(Prepared(LedgerOf(h), w)) { PreparedHandsOn(h, w); }
  }

  ghost predicate HarmlessWire(begun: seq<Wire>, ws: seq<Wire>, n: nat, harmless: Message -> bool)
    requires n <= |ws|
  {
    forall i :: 0 <= i < n ==> HarmlessAt(begun, ws, i, harmless)
  }
}
