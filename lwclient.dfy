/**
 * The LW3 client engine (src/lwclient.ts). Commands go out as
 * `SSSS#command` lines with a four-digit hexadecimal signature; replies come
 * back as `{SSSS` … `}` blocks and are matched to the pending request with
 * that signature; `CHG` lines update the property cache and notify
 * subscribers.
 *
 * The connection is a `connected` flag and the list of lines written to it.
 * A request's promise is modelled by the `Outcome` the call or the reply
 * produces; a timer firing is the explicit `Timeout` event; subscriber
 * callbacks are recorded in a ghost notification log; the `sync()` promises
 * still waiting are counted by `syncWaiters`.
 */
module LwClient {
  import opened Wrappers
  import opened Strings
  import opened Common
  import opened Escaping
  import opened LwClientSpec

  class LwClient {
    /** What `connection.isConnected()` answers. */
    var connected: bool
    /** Every `connection.write(data)` so far, in order. */
    var written: seq<string>
    const waitResponses: bool
    var subscribers: seq<Subscriber>
    var subscriptionCounter: int
    var signatureCounter: nat
    var waitList: seq<WaitItem>
    var isInBlock: bool
    var block: seq<string>
    var signature: string
    var cmdToSend: seq<string>
    var syncWaiters: nat
    var cache: map<string, map<string, CacheVal>>
    ghost var notifications: seq<Notification>

    /**
     * The counter stays a valid signature number, subscription ids increase
     * along the list and stay below the next id to hand out, and a block is
     * only collected while one is open.
     */
    predicate Valid()
      reads this
    {
      signatureCounter < SignatureModulus
      && SubsValid(subscribers, subscriptionCounter)
      && (!isInBlock ==> block == [])
    }

    /** The subscribers, the next id, the cache and the listener calls, as one value. */
    ghost function StoreOf(): Store
      reads this`subscribers, this`subscriptionCounter, this`cache, this`notifications
    {
      Store(subscribers, subscriptionCounter, cache, notifications)
    }

    /** The wait list, the output, the lines queued to send and the sync waiters, as one value. */
    function QueueOf(): Queue
      reads this`waitList, this`written, this`cmdToSend, this`syncWaiters
    {
      Queue(waitList, written, cmdToSend, syncWaiters)
    }

    /** The connection state `cmdSend` reads and changes. */
    function WireOf(): Wire
      reads this`connected, this`written, this`waitList, this`signatureCounter
    {
      Wire(connected, written, waitList, signatureCounter)
    }

    /** `cmdSend` was called once, for `q`. */
    twostate predicate SentOne(q: Request)
      reads this`connected, this`written, this`waitList, this`signatureCounter
    {
      old(signatureCounter) < SignatureModulus && WireOf() == SendOne(old(WireOf()), q)
    }

    /** `cmdSend` was called for each request in turn. */
    twostate predicate Sent(reqs: seq<Request>)
      reads this`connected, this`written, this`waitList, this`signatureCounter
    {
      old(signatureCounter) < SignatureModulus && WireOf() == SendAll(old(WireOf()), reqs)
    }

    /** Nothing was sent. */
    twostate predicate Unsent()
      reads this`connected, this`written, this`waitList, this`signatureCounter
    {
      WireOf() == old(WireOf())
    }

    /** The next queued line was written when `cond` held and one was queued. */
    twostate predicate Shifted(cond: bool)
      reads this`written, this`cmdToSend
    {
      if cond && |old(cmdToSend)| > 0 then
        written == old(written) + [old(cmdToSend)[0]] && cmdToSend == old(cmdToSend)[1..]
      else
        written == old(written) && cmdToSend == old(cmdToSend)
    }

    /**
     * `error()` (when `rejected`) rejected every sync waiter, and then
     * `checkSyncPromises` resolved the remaining ones if nothing is left to
     * send or to wait for.
     */
    twostate predicate SyncSettled(rejected: bool, resolved: nat)
      reads this`syncWaiters, this`cmdToSend, this`waitList
    {
      var left := if rejected then 0 else old(syncWaiters);
      var idle := |cmdToSend| == 0 && |waitList| == 0;
      syncWaiters == (if idle then 0 else left) && resolved == (if idle then left else 0)
    }

    /**
     * The effect of a reply block under signature `sig`: nothing when no
     * request waits for it; otherwise the first waiting entry is taken out,
     * its callback runs, and unless that throws the entry after it is
     * spliced out too and the sync waiters are settled.
     */
    twostate predicate BlockDone(sig: string, data: seq<string>, outcome: Outcome, resolved: nat)
      reads this`waitList, this`written, this`cmdToSend, this`subscribers, this`subscriptionCounter,
        this`cache, this`notifications, this`syncWaiters
    {
      var i := FirstWaiting(old(waitList), sig);
      if i == -1 then
        outcome == Pending && resolved == 0 && StoreOf() == old(StoreOf()) && waitList == old(waitList)
        && written == old(written) && cmdToSend == old(cmdToSend) && syncWaiters == old(syncWaiters)
      else Answered(i, data, outcome, resolved)
    }

    /** The reply block `data` answered the pending entry at `i`. */
    twostate predicate Answered(i: nat, data: seq<string>, outcome: Outcome, resolved: nat)
      reads this`waitList, this`written, this`cmdToSend, this`subscribers, this`subscriptionCounter,
        this`cache, this`notifications, this`syncWaiters
    {
      i < |old(waitList)|
      && (outcome, resolved, QueueOf(), StoreOf()) == AnswerEffect(i, data, waitResponses, old(QueueOf()), old(StoreOf()))
    }

    /**
     * The effect of a `CHG` line: nothing when it has no `=`; otherwise the
     * store changes as `ChgEffect` says and a `CLOSE` goes out for each path
     * whose last subscription ran out.
     */
    twostate predicate ChgDone(data: string)
      reads this`cache, this`subscribers, this`subscriptionCounter, this`notifications, this`connected,
        this`written, this`waitList, this`signatureCounter
    {
      old(signatureCounter) < SignatureModulus && (StoreOf(), WireOf()) == ChgStep(data, old(StoreOf()), old(WireOf()))
    }

    /** The fields a line that only touches block framing leaves alone. */
    twostate predicate Quiet()
      reads this
    {
      connected == old(connected) && written == old(written) && waitList == old(waitList)
      && signatureCounter == old(signatureCounter) && cmdToSend == old(cmdToSend)
      && syncWaiters == old(syncWaiters) && StoreOf() == old(StoreOf())
    }

    constructor(waitResponses: bool)
      ensures Valid()
      ensures this.waitResponses == waitResponses
      ensures !connected && written == [] && subscribers == [] && subscriptionCounter == 0
      ensures signatureCounter == 0 && waitList == [] && !isInBlock && block == [] && signature == ""
      ensures cmdToSend == [] && syncWaiters == 0 && cache == map[] && notifications == []
    {
      this.waitResponses := waitResponses;
      connected := false;
      written := [];
      subscribers := [];
      subscriptionCounter := 0;
      waitList := [];
      signatureCounter := 0;
      isInBlock := false;
      block := [];
      cmdToSend := [];
      signature := "";
      syncWaiters := 0;
      cache := map[];
      notifications := [];
    }

    /** The connection reports a close. */
    method SocketClosed()
      modifies this`connected
      ensures !connected
    {
      connected := false;
    }

    /**
     * `socketConnected`: the request state and the cache start afresh, and
     * each subscribed path is opened again, once, in order of first
     * appearance among the subscribers.
     */
    method SocketConnected()
      requires Valid()
      modifies this`connected, this`signatureCounter, this`waitList, this`isInBlock, this`block,
        this`cmdToSend, this`cache, this`written
      ensures Valid()
      ensures connected && !isInBlock && block == [] && cmdToSend == [] && cache == map[]
      ensures WireOf() == SendAll(Wire(true, old(written), [], 0), OpenRequests(FirstPaths(subscribers)))
    {
      connected := true;
      signatureCounter := 0;
      waitList := [];
      isInBlock := false;
      block := [];
      cmdToSend := [];
      cache := map[];
      assert WireOf() == Wire(true, old(written), [], 0);
      ReopenAll();
    }

    /** The loop of `socketConnected` that opens each subscribed path once. */
    method ReopenAll()
      requires Valid() && connected
      modifies this`written, this`waitList, this`signatureCounter
      ensures Valid()
      ensures WireOf() == SendAll(old(WireOf()), OpenRequests(FirstPaths(subscribers)))
    {
      var subscribed: seq<string> := [];
      var j := 0;
      while j < |subscribers|
        invariant 0 <= j <= |subscribers|
        invariant Valid() && connected
        invariant subscribed == FirstPaths(subscribers[..j])
        invariant WireOf() == SendAll(old(WireOf()), OpenRequests(subscribed))
      {
        var path := subscribers[j].path;
        assert subscribers[..j + 1][..j] == subscribers[..j];
        if path !in subscribed {
          var q := Request("OPEN " + path, NoCallback);
          CmdSend(q.cmd, q.handler);
          SendAllSnoc(old(WireOf()), OpenRequests(subscribed), q);
          assert OpenRequests(subscribed + [path]) == OpenRequests(subscribed) + [q];
          subscribed := subscribed + [path];
        }
        j := j + 1;
      }
      assert subscribers[..j] == subscribers;
    }

    /**
     * `cmdSend`: while connected, writes `SSSS#cmd` under the current
     * counter, waits for that signature and advances the counter modulo
     * 0x10000; while disconnected, does nothing.
     */
    method CmdSend(cmd: string, h: Handler)
      requires Valid()
      modifies this`written, this`waitList, this`signatureCounter
      ensures Valid()
      ensures SentOne(Request(cmd, h))
    {
      if !connected {
        return;
      }
      var sig := Hex4(signatureCounter);
      written := written + [Frame(sig, cmd)];
      waitList := waitList + [WaitItem(sig, h)];
      signatureCounter := (signatureCounter + 1) % SignatureModulus;
    }

    /** `checkSyncPromises`: with nothing queued and nothing pending, every sync waiter resolves. */
    method CheckSyncPromises() returns (resolved: nat)
      modifies this`syncWaiters
      ensures SyncSettled(false, resolved)
    {
      resolved := 0;
      if |cmdToSend| == 0 && |waitList| == 0 {
        resolved := syncWaiters;
        syncWaiters := 0;
      }
    }

    /** The loop that looks for the first pending entry with a signature. */
    method FindWaiting(sig: string) returns (i: int)
      ensures i == FirstWaiting(waitList, sig)
    {
      i := 0;
      while i < |waitList|
        invariant 0 <= i <= |waitList|
        invariant forall j :: 0 <= j < i ==> waitList[j].signature != sig
      {
        if waitList[i].signature == sig {
          return;
        }
        i := i + 1;
      }
      i := -1;
    }

    /**
     * The one-second timer of a request fired: the first entry still waiting
     * under that signature is dropped (its promise rejected when the command
     * passed a timeout callback), the next queued line goes out and the sync
     * waiters are settled. A signature nobody waits for changes nothing.
     */
    method Timeout(sig: string) returns (outcome: Outcome, resolved: nat)
      requires Valid()
      modifies this`waitList, this`written, this`cmdToSend, this`syncWaiters
      ensures Valid()
      ensures var i := FirstWaiting(old(waitList), sig);
        if i == -1 then
          outcome == Pending && resolved == 0 && waitList == old(waitList) && written == old(written)
          && cmdToSend == old(cmdToSend) && syncWaiters == old(syncWaiters)
        else
          outcome == (if old(waitList)[i].handler.HasTimeoutCallback() then Rejected(Message("no answer, timeout")) else Pending)
          && waitList == RemoveAt(old(waitList), i)
          && Shifted(true)
          && SyncSettled(outcome.Rejected?, resolved)
    {
      var i := FindWaiting(sig);
      if i == -1 {
        return Pending, 0;
      }
      outcome, resolved := Expire(i);
    }

    /** The timer of the pending entry at `i` fired. */
    method Expire(i: nat) returns (outcome: Outcome, resolved: nat)
      requires i < |waitList|
      modifies this`waitList, this`written, this`cmdToSend, this`syncWaiters
      ensures outcome == (if old(waitList)[i].handler.HasTimeoutCallback() then Rejected(Message("no answer, timeout")) else Pending)
      ensures waitList == RemoveAt(old(waitList), i)
      ensures Shifted(true)
      ensures SyncSettled(outcome.Rejected?, resolved)
    {
      var item := waitList[i];
      outcome := Pending;
      if item.handler.HasTimeoutCallback() {
        outcome := Rejected(Message("no answer, timeout"));
        syncWaiters := 0;
      }
      Dequeue(i, true);
      resolved := CheckSyncPromises();
    }

    /**
     * `lineRcv`: empty lines are ignored and `CHG` lines handled at once;
     * otherwise `{SSSS` opens a block, `}` hands the collected block to
     * `blockRcv` and closes it (unless the callback threw), and any other
     * line inside a block is collected. Stray lines outside a block change
     * nothing.
     */
    method LineRcv(data: string) returns (outcome: Outcome, resolved: nat)
      requires Valid()
      modifies this
      ensures Valid()
      ensures |data| == 0 ==>
        outcome == Pending && Quiet() && isInBlock == old(isInBlock) && block == old(block) && signature == old(signature)
      ensures |data| > 0 && IsChg(data) ==>
        outcome == Pending && ChgDone(data) && cmdToSend == old(cmdToSend) && syncWaiters == old(syncWaiters)
        && subscriptionCounter == old(subscriptionCounter)
        && isInBlock == old(isInBlock) && block == old(block) && signature == old(signature)
      ensures |data| > 0 && !IsChg(data) && !old(isInBlock) ==>
        outcome == Pending && Quiet() && block == old(block)
        && if data[0] == '{' then isInBlock && signature == Substring(data, 1, 5)
          else !isInBlock && signature == old(signature)
      ensures |data| > 0 && !IsChg(data) && old(isInBlock) && data[0] != '}' ==>
        outcome == Pending && Quiet() && isInBlock && block == old(block) + [data] && signature == old(signature)
      ensures |data| > 0 && !IsChg(data) && old(isInBlock) && data[0] == '}' ==>
        BlockDone(old(signature), old(block), outcome, resolved) && connected == old(connected)
        && signatureCounter == old(signatureCounter) && signature == old(signature)
        && if outcome == Thrown then isInBlock && block == old(block) else !isInBlock && block == []
    {
      outcome, resolved := Pending, 0;
      if |data| == 0 {
        return;
      }
      if IsChg(data) {
        ChgRcv(data);
      } else if isInBlock && data[0] == '}' {
        outcome, resolved := BlockEnd();
      } else {
        FrameLine(data);
      }
    }

    /** A line that opens a block, is collected into one, or is stray. */
    method FrameLine(data: string)
      requires Valid() && |data| > 0 && !(isInBlock && data[0] == '}')
      modifies this`isInBlock, this`signature, this`block
      ensures Valid() && Quiet()
      ensures !old(isInBlock) ==>
        block == old(block) && if data[0] == '{' then isInBlock && signature == Substring(data, 1, 5)
          else !isInBlock && signature == old(signature)
      ensures old(isInBlock) ==> isInBlock && block == old(block) + [data] && signature == old(signature)
    {
      if !isInBlock {
        if data[0] == '{' {
          isInBlock := true;
          signature := Substring(data, 1, 5);
        }
      } else {
        block := block + [data];
      }
    }

    /** The closing `}` of a block: the block goes to `blockRcv` and is closed unless the callback threw. */
    method BlockEnd() returns (outcome: Outcome, resolved: nat)
      requires Valid() && isInBlock
      modifies this`waitList, this`written, this`cmdToSend, this`cache, this`subscribers,
        this`subscriptionCounter, this`syncWaiters, this`notifications, this`block, this`isInBlock
      ensures Valid()
      ensures BlockDone(old(signature), old(block), outcome, resolved) && connected == old(connected)
        && signatureCounter == old(signatureCounter) && signature == old(signature)
        && if outcome == Thrown then isInBlock && block == old(block) else !isInBlock && block == []
    {
      outcome, resolved := BlockRcv(signature, block);
      if outcome != Thrown {
        ClearBlock();
      }
    }

    /** Leaves block mode with nothing collected. */
    method ClearBlock()
      modifies this`block, this`isInBlock
      ensures !isInBlock && block == []
    {
      block := [];
      isInBlock := false;
    }

    /**
     * `chgRcv`: parses `CHG node.property=value`, stores the unescaped value
     * in the cache, notifies every matching subscriber, charges limited
     * subscriptions one call, and closes the ones that reach zero.
     */
    method ChgRcv(data: string)
      requires Valid()
      modifies this`cache, this`subscribers, this`notifications, this`written, this`waitList, this`signatureCounter
      ensures Valid()
      ensures ChgDone(data)
    {
      var parsed := ParseChg(data);
      if parsed.None? {
        return;
      }
      ApplyChg(parsed.value);
    }

    /** The part of `chgRcv` after parsing: cache, subscriber loop, `CLOSE`s. */
    method ApplyChg(c: Change)
      requires Valid()
      modifies this`cache, this`subscribers, this`notifications, this`written, this`waitList, this`signatureCounter
      ensures Valid()
      ensures var effect := ChgEffect(c, old(StoreOf()));
        StoreOf() == effect.0 && WireOf() == SendAll(old(WireOf()), CloseRequests(effect.1))
    {
      ghost var s0, w0 := StoreOf(), WireOf();
      var entry := if c.node in cache then cache[c.node] else map[];
      cache := cache[c.node := entry[c.prop := CStr(c.value)]];
      var toClose := Notify(c);
      ChgUpdatedValid(s0.subscribers, c, subscriptionCounter);
      ghost var closed := CloseAll(subscribers, toClose);
      assert closed == CloseAll(ChgUpdated(s0.subscribers, c), ChgToClose(s0.subscribers, c));
      assert WireOf() == w0;
      CloseEach(toClose);
      assert StoreOf() == ChgEffect(c, s0).0;
    }

    /** The subscriber loop of `chgRcv`: notifies and charges, and collects the ids to close. */
    method Notify(c: Change) returns (toClose: seq<int>)
      modifies this`subscribers, this`notifications
      ensures subscribers == ChgUpdated(old(subscribers), c)
      ensures notifications == old(notifications) + ChgNotified(old(subscribers), c)
      ensures toClose == ChgToClose(old(subscribers), c)
    {
      ghost var subs0 := subscribers;
      toClose := [];
      var j := 0;
      while j < |subscribers|
        invariant 0 <= j <= |subscribers| == |subs0|
        invariant forall k :: 0 <= k < j ==> subscribers[k] == Counted(subs0[k], c)
        invariant forall k :: j <= k < |subs0| ==> subscribers[k] == subs0[k]
        invariant notifications == old(notifications) + ChgNotified(subs0[..j], c)
        invariant toClose == ChgToClose(subs0[..j], c)
      {
        assert subs0[..j + 1][..j] == subs0[..j];
        var closed := NotifyOne(j, c);
        toClose := toClose + closed;
        j := j + 1;
      }
      assert subs0[..j] == subs0;
    }

    /** One subscriber of the `chgRcv` loop: notified and charged when the change fires it. */
    method NotifyOne(j: nat, c: Change) returns (closed: seq<int>)
      requires j < |subscribers|
      modifies this`subscribers, this`notifications
      ensures var s := old(subscribers)[j];
        subscribers == old(subscribers)[j := Counted(s, c)]
        && notifications == old(notifications) + (if Fires(s, c) then [ChgNote(s, c)] else [])
        && closed == if Fires(s, c) && s.count != -1 && s.count - 1 == 0 then [s.subscriptionId] else []
    {
      closed := [];
      var s := subscribers[j];
      if s.path == c.node {
        if s.property == "*" || s.property == "" || s.property == c.prop {
          if s.value == "" || s.value == c.value {
            notifications := notifications + [ChgNote(s, c)];
            if s.count != -1 {
              subscribers := subscribers[j := s.(count := s.count - 1)];
              if s.count - 1 == 0 {
                closed := [s.subscriptionId];
              }
            }
          }
        }
      }
    }

    /** `subscriptionsToClose.forEach(x => this.CLOSE(x))`. */
    method CloseEach(ids: seq<int>)
      requires Valid()
      modifies this`subscribers, this`written, this`waitList, this`signatureCounter
      ensures Valid()
      ensures var closed := CloseAll(old(subscribers), ids);
        subscribers == closed.0 && Sent(CloseRequests(closed.1))
    {
      ghost var subs0, w0 := subscribers, WireOf();
      ghost var paths: seq<string> := [];
      var k := 0;
      while k < |ids|
        invariant 0 <= k <= |ids|
        invariant Valid()
        invariant CloseAll(subs0, ids[..k]) == (subscribers, paths)
        invariant WireOf() == SendAll(w0, CloseRequests(paths))
      {
        assert ids[..k + 1][..k] == ids[..k];
        paths := CloseOne(ids[k], w0, paths);
        k := k + 1;
      }
      assert ids[..k] == ids;
    }

    /** One `CLOSE` of the `chgRcv` loop, with the paths closed on the wire so far. */
    method CloseOne(id: int, ghost w0: Wire, ghost paths: seq<string>) returns (ghost paths': seq<string>)
      requires Valid() && w0.counter < SignatureModulus
      requires WireOf() == SendAll(w0, CloseRequests(paths))
      modifies this`subscribers, this`written, this`waitList, this`signatureCounter
      ensures Valid()
      ensures var step := CloseStep(old(subscribers), ById(id));
        subscribers == step.0 && paths' == paths + (if step.1.Some? then [step.1.value] else [])
      ensures WireOf() == SendAll(w0, CloseRequests(paths'))
    {
      ghost var step := CloseStep(subscribers, ById(id));
      var _ := Close(ById(id));
      if step.1.Some? {
        var q := Request("CLOSE " + step.1.value, CloseReply(step.1.value));
        SendAllSnoc(w0, CloseRequests(paths), q);
        CloseRequestsSnoc(paths, step.1.value);
        paths' := paths + [step.1.value];
      } else {
        paths' := paths + [];
        assert paths' == paths;
      }
    }

    /**
     * `blockRcv`: the first request waiting under the block's signature is
     * answered. Its entry is spliced out, the next queued line goes out when
     * replies are awaited, the callback runs, and then `splice(i, 1)` runs a
     * second time, which drops whichever entry now sits at that index.
     */
    method BlockRcv(sig: string, data: seq<string>) returns (outcome: Outcome, resolved: nat)
      requires Valid()
      modifies this`waitList, this`written, this`cmdToSend, this`cache, this`subscribers,
        this`subscriptionCounter, this`syncWaiters, this`notifications
      ensures Valid()
      ensures BlockDone(sig, data, outcome, resolved)
    {
      var i := FindWaiting(sig);
      if i == -1 {
        return Pending, 0;
      }
      outcome, resolved := Answer(i, data);
    }

    /** The reply block `data` reached the pending entry at `i`. */
    method Answer(i: nat, data: seq<string>) returns (outcome: Outcome, resolved: nat)
      requires Valid() && i < |waitList|
      modifies this`waitList, this`written, this`cmdToSend, this`cache, this`subscribers,
        this`subscriptionCounter, this`syncWaiters, this`notifications
      ensures Valid()
      ensures Answered(i, data, outcome, resolved)
    {
      var h := waitList[i].handler;
      ghost var store0 := StoreOf();
      Dequeue(i, waitResponses);
      assert StoreOf() == store0;
      outcome := RunHandler(h, data);
      resolved := 0;
      if outcome == Thrown {
        return;
      }
      resolved := Settle(i);
    }

    /** After a callback that did not throw: the second `splice(i, 1)` and `checkSyncPromises`. */
    method Settle(i: nat) returns (resolved: nat)
      modifies this`waitList, this`syncWaiters
      ensures waitList == if i < |old(waitList)| then RemoveAt(old(waitList), i) else old(waitList)
      ensures SyncSettled(false, resolved)
    {
      if i < |waitList| {
        waitList := RemoveAt(waitList, i);
      }
      resolved := CheckSyncPromises();
    }

    /** Takes entry `i` off the wait list and, when `shift` holds, writes the next queued line. */
    method Dequeue(i: nat, shift: bool)
      requires i < |waitList|
      modifies this`waitList, this`written, this`cmdToSend
      ensures waitList == RemoveAt(old(waitList), i)
      ensures Shifted(shift)
    {
      waitList := RemoveAt(waitList, i);
      if shift && |cmdToSend| > 0 {
        written := written + [cmdToSend[0]];
        cmdToSend := cmdToSend[1..];
      }
    }

    /** Runs the callback a request left in the wait list. */
    method RunHandler(h: Handler, data: seq<string>) returns (outcome: Outcome)
      requires Valid()
      modifies this`cache, this`subscribers, this`subscriptionCounter, this`syncWaiters, this`notifications
      ensures Valid()
      ensures (outcome, StoreOf()) == HandlerEffect(h, data, old(StoreOf()))
      ensures syncWaiters == if RejectsSync(outcome) then 0 else old(syncWaiters)
    {
      match h
      case NoCallback =>
        outcome := Pending;
      case SetReply =>
        outcome := SetOutcome(data);
        if RejectsSync(outcome) {
          syncWaiters := 0;
        }
      case CallReply =>
        outcome := CallOutcome(data);
        if RejectsSync(outcome) {
          syncWaiters := 0;
        }
      case GetReply(node, prop) =>
        outcome := GetRun(node, prop, data);
      case FetchAllReply(path, listener) =>
        outcome := FetchAllLines(path, listener, data);
      case OpenReply(path, property, value, listener, count) =>
        outcome := OpenRun(path, property, value, listener, count, data);
      case CloseReply(path) =>
        if !CloseAccepted(path, data) {
          outcome := Rejected(NoReason);
        } else {
          cache := cache - {path};
          outcome := Resolved(Done);
        }
    }

    /** The GET callback: the value is cached when the node is; a failure rejects the sync waiters. */
    method GetRun(node: string, prop: string, data: seq<string>) returns (outcome: Outcome)
      modifies this`cache, this`syncWaiters
      ensures (outcome, StoreOf()) == GetEffect(node, prop, data, old(StoreOf()))
      ensures syncWaiters == if RejectsSync(outcome) then 0 else old(syncWaiters)
    {
      outcome := GetOutcome(data);
      if outcome.Resolved? {
        if node in cache {
          cache := cache[node := cache[node][prop := CConv(outcome.answer.value)]];
        }
      } else {
        syncWaiters := 0;
      }
    }

    /** The OPEN callback: an accepted reply subscribes under the next id. */
    method OpenRun(path: string, property: string, value: string, listener: CallbackId, count: int,
                   data: seq<string>) returns (outcome: Outcome)
      requires Valid()
      modifies this`cache, this`subscribers, this`subscriptionCounter
      ensures Valid()
      ensures (outcome, StoreOf()) == OpenEffect(path, property, value, listener, count, data, old(StoreOf()))
    {
      if |data| == 0 {
        outcome := Thrown;
      } else if !OpenAccepted(path, data) {
        outcome := Rejected(NoReason);
      } else {
        subscribers := subscribers + [Subscriber(path, property, value, listener, subscriptionCounter, count)];
        if path !in cache {
          cache := cache[path := map[]];
        }
        outcome := Resolved(SubscriptionId(subscriptionCounter));
        subscriptionCounter := subscriptionCounter + 1;
      }
    }

    /**
     * The FETCHALL callback: each property line with a `=` stores its value
     * in the node's cache (when the node is cached) and is reported to the
     * listener; each one without `=` rejects, and only the first rejection
     * counts.
     */
    method FetchAllLines(path: string, listener: CallbackId, data: seq<string>) returns (outcome: Outcome)
      modifies this`cache, this`notifications, this`syncWaiters
      ensures outcome == FetchAllOutcome(data)
      ensures notifications == old(notifications) + FetchNotified(path, listener, Fetched(data))
      ensures cache == if path in old(cache)
        then old(cache)[path := StoreAll(old(cache)[path], FetchedVals(Fetched(data)))]
        else old(cache)
      ensures syncWaiters == if RejectsSync(outcome) then 0 else old(syncWaiters)
    {
      var failed: Option<string> := None;
      var entry: map<string, CacheVal> := if path in cache then cache[path] else map[];
      ghost var acc0 := FetchAcc(None, entry, notifications);
      var j := 0;
      while j < |data|
        invariant 0 <= j <= |data|
        invariant FetchAcc(failed, entry, notifications) == FetchRun(path, listener, data[..j], acc0)
        invariant cache == old(cache)
        invariant syncWaiters == if failed.Some? then 0 else old(syncWaiters)
      {
        var line := data[j];
        assert data[..j + 1][..j] == data[..j];
        var malformed;
        entry, malformed := FetchLine(path, listener, line, entry);
        if malformed {
          if failed.None? {
            failed := Some(line);
          }
          syncWaiters := 0;
        }
        j := j + 1;
      }
      assert data[..j] == data;
      FetchRunSpec(path, listener, data, acc0.entry, acc0.notes);
      if path in cache {
        cache := cache[path := entry];
      }
      outcome := if failed.Some? then Rejected(Message("Malformed GET response: " + failed.value)) else Resolved(Done);
    }

    /**
     * One line of the FETCHALL callback: a `p…` line with a `=` stores its
     * converted value under its name and is reported to the listener; a
     * `p…` line without `=` is malformed; any other line is skipped.
     */
    method FetchLine(path: string, listener: CallbackId, line: string, entry: map<string, CacheVal>)
      returns (stored: map<string, CacheVal>, malformed: bool)
      modifies this`notifications
      ensures malformed <==> IsPropertyLine(line) && '=' !in line
      ensures IsPropertyLine(line) && '=' in line ==>
        stored == entry[FetchedName(line) := CConv(ReplyValue(line))]
        && notifications == old(notifications) + [Notification(listener, path, FetchedName(line), ReplyValue(line))]
      ensures !(IsPropertyLine(line) && '=' in line) ==> stored == entry && notifications == old(notifications)
    {
      stored, malformed := entry, false;
      if |line| > 0 && line[0] == 'p' {
        var n := IndexOfChar(line, '=');
        var p := IndexOfChar(line, '.');
        if n == -1 {
          return entry, true;
        }
        var text := line[n + 1..];
        assert text == RawValue(line);
        var property := Substring(line, p + 1, n);
        assert property == FetchedName(line);
        var value := ConvertValue(Unescape(text));
        assert value == ReplyValue(line);
        stored := entry[property := CConv(value)];
        notifications := notifications + [Notification(listener, path, property, value)];
      }
    }

    /** `SET`: sends `SET property=escaped value`; the reply settles the promise. */
    method Set(property: string, value: string) returns (outcome: Outcome)
      requires Valid()
      modifies this`written, this`waitList, this`signatureCounter
      ensures Valid()
      ensures outcome == Pending
      ensures SentOne(Request("SET " + property + "=" + Escape(value), SetReply))
    {
      CmdSend("SET " + property + "=" + Escape(value), SetReply);
      outcome := Pending;
    }

    /** `CALL`: sends `CALL property(escaped parameter)`. */
    method Call(property: string, param: string) returns (outcome: Outcome)
      requires Valid()
      modifies this`written, this`waitList, this`signatureCounter
      ensures Valid()
      ensures outcome == Pending
      ensures SentOne(Request("CALL " + property + "(" + Escape(param) + ")", CallReply))
    {
      CmdSend("CALL " + property + "(" + Escape(param) + ")", CallReply);
      outcome := Pending;
    }

    /**
     * `GET`: a property path without exactly one `.` is rejected; a truthy
     * cached value answers at once and sends nothing; otherwise the GET goes
     * out.
     */
    method Get(property: string) returns (outcome: Outcome)
      requires Valid()
      modifies this`written, this`waitList, this`signatureCounter, this`syncWaiters
      ensures Valid()
      ensures var parts := PathParts(property);
        if |parts| != 2 then
          outcome == Rejected(Message("Getting invalid property: " + property)) && syncWaiters == 0 && Unsent()
        else if Cached(cache, parts[0], parts[1]) then
          outcome == CacheHit(cache[parts[0]][parts[1]]) && syncWaiters == old(syncWaiters) && Unsent()
        else
          outcome == Pending && syncWaiters == old(syncWaiters)
          && SentOne(Request("GET " + property, GetReply(parts[0], parts[1])))
    {
      var parts := PathParts(property);
      if |parts| != 2 {
        syncWaiters := 0;
        return Rejected(Message("Getting invalid property: " + property));
      }
      if parts[0] in cache {
        var nodeCache := cache[parts[0]];
        if parts[1] in nodeCache && CacheTruthy(nodeCache[parts[1]]) {
          return CacheHit(nodeCache[parts[1]]);
        }
      }
      CmdSend("GET " + property, GetReply(parts[0], parts[1]));
      outcome := Pending;
    }

    /** `FETCHALL`: asks for every property of a node. */
    method FetchAll(path: string, listener: CallbackId) returns (outcome: Outcome)
      requires Valid()
      modifies this`written, this`waitList, this`signatureCounter
      ensures Valid()
      ensures outcome == Pending
      ensures SentOne(Request("GET " + path + ".*", FetchAllReply(path, listener)))
    {
      CmdSend("GET " + path + ".*", FetchAllReply(path, listener));
      outcome := Pending;
    }

    /**
     * `OPEN`: the first subscription to a path sends `OPEN` and subscribes
     * when the reply accepts it; a further subscription to an already
     * watched path is added at once with the next id.
     */
    method Open(path: string, listener: CallbackId, rule: string, count: int) returns (outcome: Outcome)
      requires Valid()
      modifies this`subscribers, this`subscriptionCounter, this`written, this`waitList, this`signatureCounter
      ensures Valid()
      ensures var p := StripSlash(path); var filters := RuleParts(rule);
        if !HasPath(old(subscribers), p) then
          outcome == Pending && subscribers == old(subscribers) && subscriptionCounter == old(subscriptionCounter)
          && SentOne(Request("OPEN " + p, OpenReply(p, filters.0, filters.1, listener, count)))
        else
          outcome == Resolved(SubscriptionId(old(subscriptionCounter)))
          && subscribers == old(subscribers) + [Subscriber(p, filters.0, filters.1, listener, old(subscriptionCounter), count)]
          && subscriptionCounter == old(subscriptionCounter) + 1
          && Unsent()
    {
      var p := StripSlash(path);
      var alreadyOpen := HasPath(subscribers, p);
      var filters := RuleParts(rule);
      if !alreadyOpen {
        CmdSend("OPEN " + p, OpenReply(p, filters.0, filters.1, listener, count));
        outcome := Pending;
      } else {
        subscribers := subscribers + [Subscriber(p, filters.0, filters.1, listener, subscriptionCounter, count)];
        outcome := Resolved(SubscriptionId(subscriptionCounter));
        subscriptionCounter := subscriptionCounter + 1;
      }
    }

    /**
     * `CLOSE`: an unknown id or callback is rejected; otherwise its first
     * subscription is removed, and the node is closed on the wire only when
     * no other subscription watches it.
     */
    method Close(ref: SubRef) returns (outcome: Outcome)
      requires Valid()
      modifies this`subscribers, this`written, this`waitList, this`signatureCounter
      ensures Valid()
      ensures var step := CloseStep(old(subscribers), ref);
        subscribers == step.0
        && (step.1.None? ==> Unsent())
        && (step.1.Some? ==> SentOne(Request("CLOSE " + step.1.value, CloseReply(step.1.value))))
      ensures FindSub(old(subscribers), ref) == -1 ==> outcome == Rejected(NoReason)
      ensures FindSub(old(subscribers), ref) != -1 ==>
        outcome == if CloseStep(old(subscribers), ref).1.Some? then Pending else Resolved(Done)
    {
      var i := FindSub(subscribers, ref);
      if i == -1 {
        return Rejected(NoReason);
      }
      var path := subscribers[i].path;
      Unsubscribe(i);
      if !HasPath(subscribers, path) {
        CmdSend("CLOSE " + path, CloseReply(path));
        outcome := Pending;
      } else {
        outcome := Resolved(Done);
      }
    }

    /** Removes one subscription from the list. */
    method Unsubscribe(i: nat)
      requires Valid() && i < |subscribers|
      modifies this`subscribers
      ensures Valid()
      ensures subscribers == RemoveAt(old(subscribers), i)
    {
      RemoveKeepsIncreasing(subscribers, i);
      var rest := RemoveAt(subscribers, i);
      forall k | 0 <= k < |rest| ensures rest[k].subscriptionId < subscriptionCounter {
        assert rest[k] == if k < i then subscribers[k] else subscribers[k + 1];
      }
      subscribers := rest;
    }

    /** `sync`: resolves at once when nothing is queued or pending, otherwise waits. */
    method Sync() returns (outcome: Outcome)
      modifies this`syncWaiters
      ensures |cmdToSend| == 0 && |waitList| == 0 ==> outcome == Resolved(Done) && syncWaiters == old(syncWaiters)
      ensures !(|cmdToSend| == 0 && |waitList| == 0) ==> outcome == Pending && syncWaiters == old(syncWaiters) + 1
    {
      if |cmdToSend| == 0 && |waitList| == 0 {
        return Resolved(Done);
      }
      syncWaiters := syncWaiters + 1;
      outcome := Pending;
    }
  }
}
