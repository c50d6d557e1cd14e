/**
 * The decisions the LW3 client (src/lwclient.ts) takes on values alone: the
 * request lines and wait-list entries `cmdSend` produces, what each reply
 * callback makes of a reply block, how a `CHG` line is parsed and which
 * subscribers it reaches, and the bookkeeping of `OPEN` and `CLOSE` on the
 * subscriber list. The class in module `LwClient` applies them to its state.
 */
module LwClientSpec {
  import opened Wrappers
  import opened Strings
  import opened Common
  import opened Escaping

  /** Stands for a listener function supplied by the user. */
  type CallbackId = nat

  /** An entry of `subscribers`: a watch on a node, optionally on one property and one value. */
  datatype Subscriber = Subscriber(
    path: string, property: string, value: string,
    callback: CallbackId, subscriptionId: int, count: int)

  /**
   * What a pending request does with its reply block: the closure that
   * `cmdSend` stores in the wait list, named by the command that made it.
   */
  datatype Handler =
    | NoCallback
    | SetReply
    | CallReply
    | GetReply(node: string, prop: string)
    | FetchAllReply(path: string, listener: CallbackId)
    | OpenReply(path: string, property: string, value: string, listener: CallbackId, count: int)
    | CloseReply(path: string)
  {
    /** Only SET, CALL, GET and FETCHALL pass a timeout callback. */
    predicate HasTimeoutCallback() {
      SetReply? || CallReply? || GetReply? || FetchAllReply?
    }
  }

  datatype WaitItem = WaitItem(signature: string, handler: Handler)

  /** A command to send together with the callback that will read its reply. */
  datatype Request = Request(cmd: string, handler: Handler)

  /**
   * A cached property. `CHG` lines store the unescaped text; a GET reply
   * stores the value already converted, although the cache is declared to
   * hold strings.
   */
  datatype CacheVal = CStr(text: string) | CConv(value: Value)

  datatype Answer = Done | Text(text: string) | Converted(value: Value) | SubscriptionId(id: int)

  /** Why a promise was rejected: `reject()` with no argument, an `Error` message, or a TypeError. */
  datatype Reason = NoReason | Message(text: string) | MessageWithJson(prefix: string, lines: seq<string>) | TypeError

  /**
   * The fate of a request's promise after one step: still pending, settled
   * either way, or `Thrown` when the reply handler itself throws (the
   * exception escapes the line handler and the promise stays pending).
   */
  datatype Outcome = Pending | Resolved(answer: Answer) | Rejected(reason: Reason) | Thrown

  /** One call of a subscriber's callback. */
  datatype Notification = Notification(listener: CallbackId, path: string, property: string, value: Value)

  /** The argument of `CLOSE`: a subscription id, a callback, or anything else. */
  datatype SubRef = ById(id: int) | ByCallback(listener: CallbackId) | OtherRef

  const SignatureModulus := 0x10000

  // ---------------------------------------------------------------------
  // Outgoing lines
  // ---------------------------------------------------------------------

  /** The line `cmdSend` writes for a command under a signature. */
  function Frame(signature: string, cmd: string): string {
    signature + "#" + cmd + "\n"
  }

  /** The lines written by successive `cmdSend` calls starting at counter value `start`. */
  function Frames(reqs: seq<Request>, start: nat): (r: seq<string>)
    requires start < SignatureModulus
    ensures |r| == |reqs|
  {
    if |reqs| == 0 then []
    else
      var n := |reqs| - 1;
      Frames(reqs[..n], start) + [Frame(Hex4((start + n) % SignatureModulus), reqs[n].cmd)]
  }

  /** The wait-list entries the same calls append. */
  function Waits(reqs: seq<Request>, start: nat): (r: seq<WaitItem>)
    requires start < SignatureModulus
    ensures |r| == |reqs|
  {
    if |reqs| == 0 then []
    else
      var n := |reqs| - 1;
      Waits(reqs[..n], start) + [WaitItem(Hex4((start + n) % SignatureModulus), reqs[n].handler)]
  }

  lemma FramesSnoc(reqs: seq<Request>, q: Request, start: nat)
    requires start < SignatureModulus
    ensures Frames(reqs + [q], start) == Frames(reqs, start) + [Frame(Hex4((start + |reqs|) % SignatureModulus), q.cmd)]
    ensures Waits(reqs + [q], start) == Waits(reqs, start) + [WaitItem(Hex4((start + |reqs|) % SignatureModulus), q.handler)]
  {
    assert (reqs + [q])[..|reqs|] == reqs;
  }

  /** The counter advances by one modulo 0x10000 per request. */
  lemma ModStep(a: nat)
    ensures (a % SignatureModulus + 1) % SignatureModulus == (a + 1) % SignatureModulus
  {
  }

  /** Request `i` of a batch goes out under the signature of counter value `start + i`, wrapped. */
  lemma {:induction false} FramesAt(reqs: seq<Request>, start: nat, i: nat)
    requires start < SignatureModulus && i < |reqs|
    ensures Frames(reqs, start)[i] == Frame(Hex4((start + i) % SignatureModulus), reqs[i].cmd)
    ensures Waits(reqs, start)[i] == WaitItem(Hex4((start + i) % SignatureModulus), reqs[i].handler)
    decreases |reqs|
  {
    var n := |reqs| - 1;
    if i < n {
      FramesAt(reqs[..n], start, i);
    }
  }

  lemma ModDistinct(a: nat, i: nat, j: nat)
    requires i < j < i + SignatureModulus
    ensures (a + i) % SignatureModulus != (a + j) % SignatureModulus
  {
  }

  /**
   * Requests sent in one run of at most 0x10000 commands wait under pairwise
   * distinct signatures, so a reply block names at most one of them.
   */
  lemma WaitSignaturesDistinct(reqs: seq<Request>, start: nat, i: nat, j: nat)
    requires start < SignatureModulus && |reqs| <= SignatureModulus
    requires i < j < |reqs|
    ensures Waits(reqs, start)[i].signature != Waits(reqs, start)[j].signature
  {
    FramesAt(reqs, start, i);
    FramesAt(reqs, start, j);
    ModDistinct(start, i, j);
    Hex4Injective((start + i) % SignatureModulus, (start + j) % SignatureModulus);
  }

  // ---------------------------------------------------------------------
  // The wait list
  // ---------------------------------------------------------------------

  /** The first pending entry waiting under `sig`, or -1. */
  function FirstWaiting(wl: seq<WaitItem>, sig: string): (i: int)
    ensures -1 <= i < |wl|
    ensures i == -1 <==> forall j :: 0 <= j < |wl| ==> wl[j].signature != sig
    ensures i != -1 ==> wl[i].signature == sig && forall j :: 0 <= j < i ==> wl[j].signature != sig
  {
    if |wl| == 0 then -1
    else if wl[0].signature == sig then 0
    else
      var k := FirstWaiting(wl[1..], sig);
      assert forall j :: 1 <= j < |wl| ==> wl[j] == wl[1..][j - 1];
      if k == -1 then -1 else k + 1
  }

  function RemoveAt<T>(s: seq<T>, i: nat): (r: seq<T>)
    requires i < |s|
    ensures |r| == |s| - 1
  {
    s[..i] + s[i + 1..]
  }

  /**
   * The wait list after a handled reply block: `splice(i, 1)` once before
   * the callback and once more after it.
   */
  function SpliceTwice<T>(s: seq<T>, i: nat): (r: seq<T>)
    requires i < |s|
  {
    var once := RemoveAt(s, i);
    if i < |once| then RemoveAt(once, i) else once
  }

  /**
   * The second splice drops the entry that followed the answered one, so
   * two entries leave the list; only when the answered entry was the last
   * does the list shrink by one.
   */
  lemma SpliceTwiceDropsNext<T>(s: seq<T>, i: nat)
    requires i < |s|
    ensures i + 1 < |s| ==> SpliceTwice(s, i) == s[..i] + s[i + 2..] && |SpliceTwice(s, i)| == |s| - 2
    ensures i + 1 == |s| ==> SpliceTwice(s, i) == s[..i]
  {
    if i + 1 < |s| {
      var once := RemoveAt(s, i);
      assert once[..i] == s[..i];
      assert once[i + 1..] == s[i + 2..];
    }
  }

  /**
   * With pairwise distinct signatures, the entry that followed the answered
   * one is no longer waited for at all: its own reply will find nothing.
   */
  lemma SpliceTwiceLosesFollower(wl: seq<WaitItem>, i: nat)
    requires i + 1 < |wl|
    requires forall a, b :: 0 <= a < b < |wl| ==> wl[a].signature != wl[b].signature
    ensures FirstWaiting(SpliceTwice(wl, i), wl[i + 1].signature) == -1
    ensures FirstWaiting(SpliceTwice(wl, i), wl[i].signature) == -1
  {
    SpliceTwiceDropsNext(wl, i);
    var r := SpliceTwice(wl, i);
    forall j | 0 <= j < |r|
      ensures r[j].signature != wl[i + 1].signature && r[j].signature != wl[i].signature
    {
      if j < i { assert r[j] == wl[j]; } else { assert r[j] == wl[j + 2]; }
    }
  }

  // ---------------------------------------------------------------------
  // Reply interpretation (the callbacks' decisions)
  // ---------------------------------------------------------------------

  /** `line.substring(eqpos + 1)` where `eqpos` is the first `=` or the line's length. */
  function AfterEq(line: string): (r: string)
    ensures '=' in line ==> r == line[IndexOfChar(line, '=') + 1..]
    ensures '=' !in line ==> r == ""
  {
    var eq := IndexOfChar(line, '=');
    var eqpos := if eq == -1 then |line| else eq;
    Substring(line, eqpos + 1, |line|)
  }

  /** Whether a rejection went through `error()`, which also rejects every `sync()` waiter. */
  predicate RejectsSync(o: Outcome) {
    o.Rejected? && !o.reason.NoReason?
  }

  /** The SET callback: resolves unless the second character of the first line is `E`. */
  function SetOutcome(data: seq<string>): (r: Outcome)
    ensures r == Thrown <==> |data| == 0
    ensures r.Resolved? <==> |data| > 0 && !(|data[0]| > 1 && data[0][1] == 'E')
    ensures r.Rejected? ==> r.reason == Message("Error received: " + Join(data, ","))
    ensures r != Pending
  {
    if |data| == 0 then Thrown
    else if |data[0]| > 1 && data[0][1] == 'E' then Rejected(Message("Error received: " + Join(data, ",")))
    else Resolved(Done)
  }

  /** The CALL callback. */
  function CallOutcome(data: seq<string>): (r: Outcome)
    ensures r.Resolved? || RejectsSync(r)
    ensures r.Resolved? <==> |data| == 1 && StartsWith(data[0], "mO ")
    ensures r.Resolved? ==> r.answer == Text(AfterEq(data[0]))
    ensures |data| == 1 && StartsWith(data[0], "mE ") ==> r == Rejected(Message(AfterEq(data[0])))
  {
    if |data| > 1 then Rejected(MessageWithJson("CALL response contains multiple lines: ", data))
    else if |data| == 0 then Rejected(Message("CALL response contains no data!"))
    else
      var line := data[0];
      if |line| == 0 then Rejected(Message("Empty response"))
      else if Substring(line, 0, 3) == "mE " then Rejected(Message(AfterEq(line)))
      else if Substring(line, 0, 3) == "mO " then Resolved(Text(AfterEq(line)))
      else Rejected(Message("Malformed response to CALL: " + Join(data, ",")))
  }

  /** The value a `p…=value` reply line carries. */
  function ReplyValue(line: string): Value
    requires '=' in line
  {
    ConvertValue(Unescape(RawValue(line)))
  }

  /**
   * The GET callback: only a single line that starts with `p` and holds a
   * `=` is accepted, and its value is the converted, unescaped text after
   * the first `=`.
   */
  function GetOutcome(data: seq<string>): (r: Outcome)
    ensures r.Resolved? || RejectsSync(r)
    ensures r.Resolved? <==> |data| == 1 && |data[0]| > 0 && data[0][0] == 'p' && '=' in data[0]
    ensures r.Resolved? ==> r.answer == Converted(ReplyValue(data[0]))
  {
    if |data| > 1 then Rejected(MessageWithJson("GET response contains multiple lines: ", data))
    else if |data| == 0 then Rejected(Message("GET response contains no data!"))
    else
      var line := data[0];
      if |line| == 0 then Rejected(Message("Empty response"))
      else if line[0] != 'p' then Rejected(Message("GET response contains no property... " + line))
      else if IndexOfChar(line, '=') == -1 then Rejected(Message("Malformed GET response: " + line))
      else Resolved(Converted(ReplyValue(line)))
  }

  /** A reply line the FETCHALL callback looks at. */
  predicate IsPropertyLine(line: string) {
    |line| > 0 && line[0] == 'p'
  }

  /** The property name of a `pX path.name=value` line: between the first `.` and the first `=`. */
  function FetchedName(line: string): string
    requires '=' in line
  {
    Substring(line, IndexOfChar(line, '.') + 1, IndexOfChar(line, '='))
  }

  /** The first property line without `=`, if there is one. */
  function FirstMalformed(lines: seq<string>): (r: Option<string>)
    ensures r.None? <==> forall i :: 0 <= i < |lines| && IsPropertyLine(lines[i]) ==> '=' in lines[i]
    ensures r.Some? ==> r.value in lines && IsPropertyLine(r.value) && '=' !in r.value
  {
    if |lines| == 0 then None
    else
      var n := |lines| - 1;
      var r := FirstMalformed(lines[..n]);
      assert forall i :: 0 <= i < n ==> lines[..n][i] == lines[i];
      if r.Some? then r
      else if IsPropertyLine(lines[n]) && '=' !in lines[n] then Some(lines[n])
      else None
  }

  /** The (name, escaped text) pairs of the well-formed property lines, in order. */
  function Fetched(lines: seq<string>): (r: seq<(string, string)>)
    ensures |r| <= |lines|
  {
    if |lines| == 0 then []
    else
      var n := |lines| - 1;
      var line := lines[n];
      Fetched(lines[..n]) + (if IsPropertyLine(line) && '=' in line then [(FetchedName(line), RawValue(line))] else [])
  }

  /** The escaped text after the first `=` of a reply line. */
  function RawValue(line: string): (r: string)
    requires '=' in line
    ensures r == AfterEq(line)
  {
    line[IndexOfChar(line, '=') + 1..]
  }

  /** The line is a well-formed property line naming `name` with the escaped text `v`. */
  predicate Yields(line: string, name: string, v: string) {
    IsPropertyLine(line) && '=' in line && FetchedName(line) == name && RawValue(line) == v
  }

  /** Every pair comes from a well-formed property line naming it. */
  lemma {:induction false} FetchedSound(lines: seq<string>, name: string, v: string)
    requires (name, v) in Fetched(lines)
    ensures exists i :: 0 <= i < |lines| && Yields(lines[i], name, v)
  {
    var n := |lines| - 1;
    var pre := lines[..n];
    var line := lines[n];
    if (name, v) in Fetched(pre) {
      FetchedSound(pre, name, v);
      var i :| 0 <= i < n && Yields(pre[i], name, v);
      assert pre[i] == lines[i];
    } else {
      assert Yields(lines[n], name, v);
    }
  }

  /** Every well-formed property line contributes its pair. */
  lemma {:induction false} FetchedComplete(lines: seq<string>, i: nat, name: string, v: string)
    requires i < |lines| && Yields(lines[i], name, v)
    ensures (name, v) in Fetched(lines)
  {
    var n := |lines| - 1;
    var pre := lines[..n];
    if i < n {
      assert pre[i] == lines[i];
      FetchedComplete(pre, i, name, v);
    }
  }

  /** What FETCHALL stores for each fetched text: the converted value. */
  function FetchedVals(pairs: seq<(string, string)>): (r: seq<(string, CacheVal)>)
    ensures |r| == |pairs|
  {
    if |pairs| == 0 then []
    else
      var n := |pairs| - 1;
      FetchedVals(pairs[..n]) + [(pairs[n].0, CConv(ConvertValue(Unescape(pairs[n].1))))]
  }

  /** A node's cache entry after storing the pairs one after the other. */
  function StoreAll(entry: map<string, CacheVal>, pairs: seq<(string, CacheVal)>): map<string, CacheVal>
  {
    if |pairs| == 0 then entry
    else
      var n := |pairs| - 1;
      StoreAll(entry, pairs[..n])[pairs[n].0 := pairs[n].1]
  }

  /**
   * Storing keeps every existing property and adds exactly the stored
   * names; a name stored more than once keeps its last value.
   */
  lemma {:induction false} StoreAllKeys(entry: map<string, CacheVal>, pairs: seq<(string, CacheVal)>, k: string)
    ensures k in StoreAll(entry, pairs) <==> k in entry || exists i :: 0 <= i < |pairs| && pairs[i].0 == k
    ensures forall i :: 0 <= i < |pairs| && pairs[i].0 == k && (forall j :: i < j < |pairs| ==> pairs[j].0 != k) ==>
      StoreAll(entry, pairs)[k] == pairs[i].1
  {
    if |pairs| > 0 {
      var n := |pairs| - 1;
      StoreAllKeys(entry, pairs[..n], k);
      assert forall i :: 0 <= i < n ==> pairs[..n][i] == pairs[i];
    }
  }

  /** The listener calls of the FETCHALL callback, one per fetched pair. */
  function FetchNotified(path: string, listener: CallbackId, pairs: seq<(string, string)>): (r: seq<Notification>)
    ensures |r| == |pairs|
  {
    if |pairs| == 0 then []
    else
      var n := |pairs| - 1;
      FetchNotified(path, listener, pairs[..n]) + [Notification(listener, path, pairs[n].0, ConvertValue(Unescape(pairs[n].1)))]
  }

  /** Each listener call names the fetched node and the pair's property. */
  lemma {:induction false} FetchNotifiedNames(path: string, listener: CallbackId, pairs: seq<(string, string)>, i: nat)
    requires i < |pairs|
    ensures var m := FetchNotified(path, listener, pairs)[i];
      m.listener == listener && m.path == path && m.property == pairs[i].0
  {
    var n := |pairs| - 1;
    if i < n {
      FetchNotifiedNames(path, listener, pairs[..n], i);
    }
  }

  /** One more reply line: the pairs and the malformed-line search grow by that line alone. */
  lemma FetchedSnoc(lines: seq<string>, line: string)
    ensures Fetched(lines + [line]) ==
      Fetched(lines) + (if IsPropertyLine(line) && '=' in line then [(FetchedName(line), RawValue(line))] else [])
    ensures FirstMalformed(lines + [line]) ==
      if FirstMalformed(lines).Some? then FirstMalformed(lines)
      else if IsPropertyLine(line) && '=' !in line then Some(line) else None
  {
    assert (lines + [line])[..|lines|] == lines;
  }

  lemma FetchedValsSnoc(pairs: seq<(string, string)>, name: string, text: string)
    ensures FetchedVals(pairs + [(name, text)]) == FetchedVals(pairs) + [(name, CConv(ConvertValue(Unescape(text))))]
  {
    assert (pairs + [(name, text)])[..|pairs|] == pairs;
  }

  lemma FetchNotifiedSnoc(path: string, listener: CallbackId, pairs: seq<(string, string)>, name: string, text: string)
    ensures FetchNotified(path, listener, pairs + [(name, text)]) ==
      FetchNotified(path, listener, pairs) + [Notification(listener, path, name, ConvertValue(Unescape(text)))]
  {
    assert (pairs + [(name, text)])[..|pairs|] == pairs;
  }

  lemma StoreAllSnoc(entry: map<string, CacheVal>, pairs: seq<(string, CacheVal)>, p: (string, CacheVal))
    ensures StoreAll(entry, pairs + [p]) == StoreAll(entry, pairs)[p.0 := p.1]
  {
    assert (pairs + [p])[..|pairs|] == pairs;
  }

  /**
   * One more reply line: a well-formed property line adds one pair, one
   * store and one listener call; any other line adds none.
   */
  lemma FetchLineStep(lines: seq<string>, line: string, entry: map<string, CacheVal>, path: string, listener: CallbackId)
    ensures var pre, post := Fetched(lines), Fetched(lines + [line]);
      if IsPropertyLine(line) && '=' in line then
        var v := ReplyValue(line);
        post == pre + [(FetchedName(line), RawValue(line))]
        && StoreAll(entry, FetchedVals(post)) == StoreAll(entry, FetchedVals(pre))[FetchedName(line) := CConv(v)]
        && FetchNotified(path, listener, post) == FetchNotified(path, listener, pre) + [Notification(listener, path, FetchedName(line), v)]
      else post == pre
  {
    FetchedSnoc(lines, line);
    if IsPropertyLine(line) && '=' in line {
      var pre := Fetched(lines);
      FetchedValsSnoc(pre, FetchedName(line), RawValue(line));
      StoreAllSnoc(entry, FetchedVals(pre), (FetchedName(line), CConv(ConvertValue(Unescape(RawValue(line))))));
      FetchNotifiedSnoc(path, listener, pre, FetchedName(line), RawValue(line));
    }
  }

  /** What the FETCHALL callback has gathered so far: the first malformed line, the node's entry, the listener calls. */
  datatype FetchAcc = FetchAcc(failed: Option<string>, entry: map<string, CacheVal>, notes: seq<Notification>)

  /** The callback's handling of one reply line. */
  function FetchLineEffect(path: string, listener: CallbackId, line: string, acc: FetchAcc): FetchAcc {
    if IsPropertyLine(line) && '=' in line then
      var v := ReplyValue(line);
      FetchAcc(acc.failed, acc.entry[FetchedName(line) := CConv(v)], acc.notes + [Notification(listener, path, FetchedName(line), v)])
    else if IsPropertyLine(line) && acc.failed.None? then FetchAcc(Some(line), acc.entry, acc.notes)
    else acc
  }

  /** The callback's handling of the reply lines in order. */
  function FetchRun(path: string, listener: CallbackId, lines: seq<string>, acc: FetchAcc): FetchAcc {
    if |lines| == 0 then acc
    else
      var n := |lines| - 1;
      FetchLineEffect(path, listener, lines[n], FetchRun(path, listener, lines[..n], acc))
  }

  /**
   * Handling the lines one by one finds the first malformed line, stores
   * every well-formed pair in order and calls the listener once per pair.
   */
  lemma {:induction false} FetchRunSpec(path: string, listener: CallbackId, lines: seq<string>, entry: map<string, CacheVal>, notes: seq<Notification>)
    ensures FetchRun(path, listener, lines, FetchAcc(None, entry, notes)) ==
      FetchAcc(FirstMalformed(lines), StoreAll(entry, FetchedVals(Fetched(lines))), notes + FetchNotified(path, listener, Fetched(lines)))
    decreases |lines|
  {
    if |lines| > 0 {
      FetchRunSpec(path, listener, lines[..|lines| - 1], entry, notes);
      FetchRunStep(path, listener, lines, entry, notes);
    }
  }

  /** One more line moves the three parts of `FetchRunSpec` along together. */
  lemma FetchRunStep(path: string, listener: CallbackId, lines: seq<string>, entry: map<string, CacheVal>, notes: seq<Notification>)
    requires |lines| > 0
    ensures var pre := lines[..|lines| - 1];
      FetchLineEffect(path, listener, lines[|lines| - 1],
        FetchAcc(FirstMalformed(pre), StoreAll(entry, FetchedVals(Fetched(pre))), notes + FetchNotified(path, listener, Fetched(pre))))
      == FetchAcc(FirstMalformed(lines), StoreAll(entry, FetchedVals(Fetched(lines))), notes + FetchNotified(path, listener, Fetched(lines)))
  {
    var pre, line := lines[..|lines| - 1], lines[|lines| - 1];
    if IsPropertyLine(line) && '=' in line {
      FetchPairStep(path, listener, lines, entry, notes);
    } else {
      assert Fetched(lines) == Fetched(pre);
    }
  }

  /** A well-formed property line adds one stored pair and one listener call. */
  lemma FetchPairStep(path: string, listener: CallbackId, lines: seq<string>, entry: map<string, CacheVal>, notes: seq<Notification>)
    requires |lines| > 0 && IsPropertyLine(lines[|lines| - 1]) && '=' in lines[|lines| - 1]
    ensures var pre, line := lines[..|lines| - 1], lines[|lines| - 1];
      var v := ReplyValue(line);
      FirstMalformed(lines) == FirstMalformed(pre)
      && StoreAll(entry, FetchedVals(Fetched(lines))) == StoreAll(entry, FetchedVals(Fetched(pre)))[FetchedName(line) := CConv(v)]
      && notes + FetchNotified(path, listener, Fetched(lines))
        == (notes + FetchNotified(path, listener, Fetched(pre))) + [Notification(listener, path, FetchedName(line), v)]
  {
    var pre, line := lines[..|lines| - 1], lines[|lines| - 1];
    var p := Fetched(pre);
    var name, text := FetchedName(line), RawValue(line);
    assert Fetched(lines) == p + [(name, text)];
    FetchedValsSnoc(p, name, text);
    StoreAllSnoc(entry, FetchedVals(p), (name, CConv(ReplyValue(line))));
    FetchNotifiedSnoc(path, listener, p, name, text);
  }

  /** The FETCHALL callback resolves unless some property line lacks `=`; the first such line names the rejection. */
  function FetchAllOutcome(lines: seq<string>): (r: Outcome)
    ensures r.Resolved? || RejectsSync(r)
    ensures r.Resolved? <==> forall i :: 0 <= i < |lines| && IsPropertyLine(lines[i]) ==> '=' in lines[i]
  {
    match FirstMalformed(lines)
    case None => Resolved(Done)
    case Some(line) => Rejected(Message("Malformed GET response: " + line))
  }

  /**
   * The OPEN callback accepts a first line that starts with `o` and mentions
   * the path somewhere; `search(path)` is read as a literal substring search.
   */
  predicate OpenAccepted(path: string, data: seq<string>): (ok: bool)
    requires |data| > 0
    ensures ok <==> StartsWith(data[0], "o") && exists j :: OccursAt(data[0], path, j)
  {
    |data[0]| > 0 && data[0][0] == 'o' && Contains(data[0], path)
  }

  /** The CLOSE callback accepts only the exact first line `c- path`. */
  predicate CloseAccepted(path: string, data: seq<string>) {
    |data| > 0 && data[0] == "c- " + path
  }

  // ---------------------------------------------------------------------
  // The cache as GET reads it
  // ---------------------------------------------------------------------

  /** JavaScript truthiness of a cached value. */
  predicate CacheTruthy(c: CacheVal) {
    match c
    case CStr(s) => s != ""
    case CConv(v) => Truthy(v)
  }

  /**
   * A cache hit feeds the cached value to `convertValue`. That works on the
   * text a `CHG` stored and on a converted value that stayed a string; any
   * other converted value has no `trim` method, and the TypeError rejects
   * the promise.
   */
  function CacheHit(c: CacheVal): (r: Outcome)
    ensures r.Resolved? <==> c.CStr? || c.value.Str?
    ensures r.Resolved? ==> r.answer == Converted(ConvertValue(if c.CStr? then c.text else c.value.s))
    ensures !r.Resolved? ==> r == Rejected(TypeError)
  {
    match c
    case CStr(s) => Resolved(Converted(ConvertValue(s)))
    case CConv(Str(s)) => Resolved(Converted(ConvertValue(s)))
    case CConv(_) => Rejected(TypeError)
  }

  /**
   * After a GET reply stored a numeric value, a later GET of the same
   * property does not answer from the cache but rejects with a TypeError.
   */
  lemma NumericCacheBreaksGet(text: string)
    requires |text| == 1 && '1' <= text[0] <= '9'
    ensures var c := CConv(ConvertValue(text)); CacheTruthy(c) && CacheHit(c) == Rejected(TypeError)
  {
    DigitIsNumber(text);
    assert ';' !in text;
    assert ConvertValue(text) == Num(text);
    DigitNonZero(text);
  }

  lemma DigitNonZero(t: string)
    requires |t| == 1 && '1' <= t[0] <= '9'
    ensures !NumIsZero(t)
  {
    assert !IsNonDecimalInteger(t);
    assert IndexOfChar(t, 'e') == -1 && IndexOfChar(t, 'E') == -1;
    assert !AllZero(t, true);
  }

  /** GET answers from the cache when the node has a truthy entry for the property. */
  predicate Cached(cache: map<string, map<string, CacheVal>>, node: string, prop: string) {
    node in cache && prop in cache[node] && CacheTruthy(cache[node][prop])
  }

  // ---------------------------------------------------------------------
  // Parsing requests
  // ---------------------------------------------------------------------

  function CountChar(s: string, c: char): (n: nat)
    ensures n == 0 <==> c !in s
  {
    if |s| == 0 then 0 else (if s[0] == c then 1 else 0) + CountChar(s[1..], c)
  }

  lemma {:induction false} CountConcat(a: string, b: string, c: char)
    ensures CountChar(a + b, c) == CountChar(a, c) + CountChar(b, c)
  {
    if |a| == 0 {
      assert a + b == b;
    } else {
      assert (a + b)[0] == a[0];
      assert (a + b)[1..] == a[1..] + b;
      CountConcat(a[1..], b, c);
    }
  }

  lemma {:induction false} CountJoin(ps: seq<string>, c: char)
    requires |ps| >= 1
    requires forall i :: 0 <= i < |ps| ==> c !in ps[i]
    ensures CountChar(Join(ps, [c]), c) == |ps| - 1
  {
    if |ps| > 1 {
      CountJoin(ps[1..], c);
      CountConcat(ps[0] + [c], Join(ps[1..], [c]), c);
      CountConcat(ps[0], [c], c);
      assert CountChar([c], c) == 1;
    }
  }

  /** `s.split(c)` has one piece more than `s` has occurrences of `c`. */
  lemma SplitCount(s: string, c: char)
    ensures |SplitOn(s, c)| == CountChar(s, c) + 1
  {
    CountJoin(SplitOn(s, c), c);
  }

  /** The pieces `GET` works with: `property.split('.')`. */
  function PathParts(property: string): (r: seq<string>)
    ensures |r| == 2 <==> CountChar(property, '.') == 1
  {
    assert "." == ['.'];
    SplitCount(property, '.');
    Split(property, ".")
  }

  /** `OPEN` drops one trailing `/` from the path. */
  function StripSlash(path: string): (r: string)
    ensures |path| > 0 && path[|path| - 1] == '/' ==> r + "/" == path
    ensures !(|path| > 0 && path[|path| - 1] == '/') ==> r == path
  {
    if |path| > 0 && path[|path| - 1] == '/' then path[..|path| - 1] else path
  }

  /**
   * The property and value filters of an `OPEN` rule: `*` and the empty
   * rule watch everything; otherwise the text before the first `=` names the
   * property and the text up to a second `=` the value.
   */
  function RuleParts(rule: string): (r: (string, string))
    ensures rule == "" || rule == "*" ==> r == ("", "")
  {
    if rule == "" || rule == "*" then ("", "")
    else
      var parts := SplitOn(rule, '=');
      (parts[0], if |parts| > 1 then parts[1] else "")
  }

  /** A rule without `=` filters on that property and on no value. */
  lemma RulePartsProperty(rule: string)
    requires '=' !in rule && rule != "*"
    ensures RuleParts(rule) == (rule, "")
  {
    SplitOnAbsent(rule, '=');
  }

  /** A rule `property=value` with no other `=` splits into exactly those two filters. */
  lemma RulePartsPair(p: string, v: string)
    requires '=' !in p && '=' !in v && p + "=" + v != "*"
    ensures RuleParts(p + "=" + v) == (p, v)
  {
    assert p + "=" + v == p + ['='] + v;
    SplitOnCons(p, v, '=');
    SplitOnAbsent(v, '=');
  }

  // ---------------------------------------------------------------------
  // CHG lines
  // ---------------------------------------------------------------------

  /** A parsed `CHG node.property=value` line, with the value already unescaped. */
  /**
   * A parsed `CHG` line: node path, property name, unescaped value, and that
   * value as `convertValue` turns it (what subscribers are called with).
   */
  datatype Change = Change(node: string, prop: string, value: string, converted: Value)

  predicate IsChg(line: string) {
    StartsWith(line, "CHG ")
  }

  /**
   * `chgRcv`'s parsing: everything up to the first `=` is the property path,
   * split at its first `.`; the rest is the unescaped value. A line without
   * `=` is ignored.
   */
  function ChgParts(line: string): (r: Option<(string, string, string)>)
    ensures r.None? <==> '=' !in SubstringFrom(line, 4)
  {
    var rest := SubstringFrom(line, 4);
    var eq := IndexOfChar(rest, '=');
    if eq == -1 then None
    else
      var proppath := rest[..eq];
      var dot := IndexOfChar(proppath, '.');
      Some((Substring(proppath, 0, dot), Substring(proppath, dot + 1, |proppath|), Unescape(rest[eq + 1..])))
  }

  /** The parsed change, with the value subscribers receive converted once. */
  function ParseChg(line: string): (r: Option<Change>)
    ensures r.None? <==> '=' !in SubstringFrom(line, 4)
    ensures r.Some? ==> r.value.converted == ConvertValue(r.value.value)
  {
    match ChgParts(line)
    case None => None
    case Some(p) => Some(Change(p.0, p.1, p.2, ConvertValue(p.2)))
  }

  /** A well-formed change line parses back into its node, property and unescaped value. */
  lemma ParseChgLine(node: string, prop: string, text: string)
    requires '.' !in node && '=' !in node && '=' !in prop
    ensures ChgParts("CHG " + node + "." + prop + "=" + text) == Some((node, prop, Unescape(text)))
  {
    var pp := node + "." + prop;
    var rest := SubstringFrom("CHG " + node + "." + prop + "=" + text, 4);
    ChgRest(node, prop, text);
    EqualsAfter(pp, text);
    PropPath(node, prop);
    assert rest[..IndexOfChar(rest, '=')] == pp;
  }

  /** After the `CHG ` keyword comes the property path, `=`, and the value. */
  lemma ChgRest(node: string, prop: string, text: string)
    ensures SubstringFrom("CHG " + node + "." + prop + "=" + text, 4) == (node + "." + prop) + ['='] + text
  {
    var line := "CHG " + node + "." + prop + "=" + text;
    assert line == "CHG " + ((node + "." + prop) + ['='] + text);
  }

  /** The first `=` ends a path that holds none. */
  lemma EqualsAfter(pp: string, text: string)
    requires '=' !in pp
    ensures var rest := pp + ['='] + text;
      IndexOfChar(rest, '=') == |pp| && rest[..|pp|] == pp && rest[|pp| + 1..] == text
  {
    var rest := pp + ['='] + text;
    assert rest[..|pp|] == pp;
    IndexOfCharAt(rest, '=', |pp|);
    assert rest[|pp| + 1..] == text;
  }

  /** The first `.` of a path splits it into a node that holds none and the property. */
  lemma PropPath(node: string, prop: string)
    requires '.' !in node
    ensures var pp := node + "." + prop;
      var dot := IndexOfChar(pp, '.');
      Substring(pp, 0, dot) == node && Substring(pp, dot + 1, |pp|) == prop
  {
    var pp := node + "." + prop;
    assert pp[..|node|] == node;
    IndexOfCharAt(pp, '.', |node|);
    assert pp[|node| + 1..|pp|] == prop;
  }

  /** The first occurrence of `c` is at `k` when `s[k]` is `c` and nothing before it is. */
  lemma IndexOfCharAt(s: string, c: char, k: nat)
    requires k < |s| && s[k] == c && c !in s[..k]
    ensures IndexOfChar(s, c) == k
  {
  }

  /** `chgRcv`'s test for one subscriber; `*` and `''` watch every property. */
  predicate Fires(s: Subscriber, c: Change) {
    s.path == c.node
    && (s.property == "*" || s.property == "" || s.property == c.prop)
    && (s.value == "" || s.value == c.value)
  }

  /** A fired subscriber with a limited count is charged one call. */
  function Counted(s: Subscriber, c: Change): (r: Subscriber)
    ensures r.subscriptionId == s.subscriptionId && r.path == s.path && r.callback == s.callback
  {
    if Fires(s, c) && s.count != -1 then s.(count := s.count - 1) else s
  }

  function ChgUpdated(subs: seq<Subscriber>, c: Change): (r: seq<Subscriber>)
    ensures |r| == |subs|
    ensures forall i :: 0 <= i < |subs| ==> r[i] == Counted(subs[i], c)
  {
    seq(|subs|, i requires 0 <= i < |subs| => Counted(subs[i], c))
  }

  /** Charging the subscribers a change fires keeps their ids as they were. */
  lemma ChgUpdatedValid(subs: seq<Subscriber>, c: Change, counter: int)
    requires SubsValid(subs, counter)
    ensures SubsValid(ChgUpdated(subs, c), counter)
  {
    var r := ChgUpdated(subs, c);
    assert forall i :: 0 <= i < |subs| ==> r[i].subscriptionId == subs[i].subscriptionId;
  }

  function ChgNote(s: Subscriber, c: Change): Notification {
    Notification(s.callback, c.node, c.prop, c.converted)
  }

  /** The callbacks a change reaches, in subscriber order. */
  function ChgNotified(subs: seq<Subscriber>, c: Change): (r: seq<Notification>)
    ensures |r| <= |subs|
  {
    if |subs| == 0 then []
    else
      var n := |subs| - 1;
      ChgNotified(subs[..n], c) + (if Fires(subs[n], c) then [ChgNote(subs[n], c)] else [])
  }

  /** The ids whose count reaches zero with this change. */
  function ChgToClose(subs: seq<Subscriber>, c: Change): (r: seq<int>)
  {
    if |subs| == 0 then []
    else
      var n := |subs| - 1;
      var s := subs[n];
      ChgToClose(subs[..n], c) + (if Fires(s, c) && s.count != -1 && s.count - 1 == 0 then [s.subscriptionId] else [])
  }

  /**
   * A change reaches a listener iff one of its subscriptions watches the
   * node, the property (directly, `*` or empty) and the value (or none).
   */
  lemma {:induction false} ChgNotifiedIff(subs: seq<Subscriber>, c: Change, listener: CallbackId)
    ensures Notification(listener, c.node, c.prop, c.converted) in ChgNotified(subs, c) <==>
      exists i :: 0 <= i < |subs| && Fires(subs[i], c) && subs[i].callback == listener
  {
    if |subs| > 0 {
      var n := |subs| - 1;
      ChgNotifiedIff(subs[..n], c, listener);
      assert forall i :: 0 <= i < n ==> subs[..n][i] == subs[i];
    }
  }

  /** Every notification of a change carries the change's node, property and converted value. */
  lemma {:induction false} ChgNotifiedShape(subs: seq<Subscriber>, c: Change, k: nat)
    requires k < |ChgNotified(subs, c)|
    ensures var m := ChgNotified(subs, c)[k];
      m.path == c.node && m.property == c.prop && m.value == c.converted
  {
    var n := |subs| - 1;
    if k < |ChgNotified(subs[..n], c)| {
      ChgNotifiedShape(subs[..n], c, k);
    }
  }

  /** Only subscriptions that fired with exactly one call left are closed. */
  lemma {:induction false} ChgToCloseFired(subs: seq<Subscriber>, c: Change, id: int)
    ensures id in ChgToClose(subs, c) <==>
      exists i :: 0 <= i < |subs| && Fires(subs[i], c) && subs[i].count == 1 && subs[i].subscriptionId == id
  {
    if |subs| > 0 {
      var n := |subs| - 1;
      ChgToCloseFired(subs[..n], c, id);
      assert forall i :: 0 <= i < n ==> subs[..n][i] == subs[i];
    }
  }

  // ---------------------------------------------------------------------
  // The subscriber list
  // ---------------------------------------------------------------------

  /** Subscription ids appear in strictly increasing order. */
  predicate IdsIncreasing(subs: seq<Subscriber>) {
    forall i, j :: 0 <= i < j < |subs| ==> subs[i].subscriptionId < subs[j].subscriptionId
  }

  predicate HasPath(subs: seq<Subscriber>, path: string) {
    exists i :: 0 <= i < |subs| && subs[i].path == path
  }

  predicate Matches(s: Subscriber, ref: SubRef) {
    match ref
    case ById(id) => s.subscriptionId == id
    case ByCallback(l) => s.callback == l
    case OtherRef => false
  }

  /** `_.findIndex` on the subscribers by id or by callback. */
  function FindSub(subs: seq<Subscriber>, ref: SubRef): (i: int)
    ensures -1 <= i < |subs|
    ensures i == -1 <==> forall j :: 0 <= j < |subs| ==> !Matches(subs[j], ref)
    ensures i != -1 ==> Matches(subs[i], ref) && forall j :: 0 <= j < i ==> !Matches(subs[j], ref)
  {
    if |subs| == 0 then -1
    else if Matches(subs[0], ref) then 0
    else
      var k := FindSub(subs[1..], ref);
      assert forall j :: 1 <= j < |subs| ==> subs[j] == subs[1..][j - 1];
      if k == -1 then -1 else k + 1
  }

  /**
   * The subscriber-list half of `CLOSE`: the first matching subscription is
   * removed, and its path is to be closed on the wire when no other
   * subscription watches it.
   */
  function CloseStep(subs: seq<Subscriber>, ref: SubRef): (r: (seq<Subscriber>, Option<string>))
    ensures FindSub(subs, ref) == -1 ==> r == (subs, None)
    ensures FindSub(subs, ref) != -1 ==> |r.0| == |subs| - 1
    ensures r.1.Some? <==> FindSub(subs, ref) != -1 && !HasPath(r.0, subs[FindSub(subs, ref)].path)
    ensures r.1.Some? ==> r.1.value == subs[FindSub(subs, ref)].path
  {
    var i := FindSub(subs, ref);
    if i == -1 then (subs, None)
    else
      var rest := RemoveAt(subs, i);
      var path := subs[i].path;
      (rest, if HasPath(rest, path) then None else Some(path))
  }

  /** Removing an entry keeps the ids increasing. */
  lemma RemoveKeepsIncreasing(subs: seq<Subscriber>, i: nat)
    requires i < |subs| && IdsIncreasing(subs)
    ensures IdsIncreasing(RemoveAt(subs, i))
  {
    var r := RemoveAt(subs, i);
    forall a, b | 0 <= a < b < |r| ensures r[a].subscriptionId < r[b].subscriptionId {
      var a', b' := if a < i then a else a + 1, if b < i then b else b + 1;
      assert r[a] == subs[a'] && r[b] == subs[b'];
    }
  }

  /** The CLOSE requests for a list of paths. */
  function CloseRequests(paths: seq<string>): (r: seq<Request>)
    ensures |r| == |paths|
    ensures forall i :: 0 <= i < |paths| ==> r[i] == Request("CLOSE " + paths[i], CloseReply(paths[i]))
  {
    seq(|paths|, i requires 0 <= i < |paths| => Request("CLOSE " + paths[i], CloseReply(paths[i])))
  }

  /** One more path closed adds one more CLOSE request. */
  lemma CloseRequestsSnoc(paths: seq<string>, p: string)
    ensures CloseRequests(paths + [p]) == CloseRequests(paths) + [Request("CLOSE " + p, CloseReply(p))]
  {
    assert |CloseRequests(paths + [p])| == |CloseRequests(paths) + [Request("CLOSE " + p, CloseReply(p))]|;
  }

  /** `CLOSE` applied for each id in turn; the paths that go out on the wire, in order. */
  function CloseAll(subs: seq<Subscriber>, ids: seq<int>): (r: (seq<Subscriber>, seq<string>))
    ensures |r.0| <= |subs|
  {
    if |ids| == 0 then (subs, [])
    else
      var n := |ids| - 1;
      var before := CloseAll(subs, ids[..n]);
      var step := CloseStep(before.0, ById(ids[n]));
      (step.0, before.1 + (if step.1.Some? then [step.1.value] else []))
  }

  /** The OPEN requests for a list of paths, none with a callback. */
  function OpenRequests(paths: seq<string>): (r: seq<Request>)
    ensures |r| == |paths|
    ensures forall i :: 0 <= i < |paths| ==> r[i] == Request("OPEN " + paths[i], NoCallback)
  {
    seq(|paths|, i requires 0 <= i < |paths| => Request("OPEN " + paths[i], NoCallback))
  }

  /** The subscribed paths, each once, in order of first appearance. */
  function FirstPaths(subs: seq<Subscriber>): (r: seq<string>)
  {
    if |subs| == 0 then []
    else
      var n := |subs| - 1;
      var r := FirstPaths(subs[..n]);
      if subs[n].path in r then r else r + [subs[n].path]
  }

  /** Each subscribed path is listed exactly once, and nothing else is. */
  lemma {:induction false} FirstPathsExact(subs: seq<Subscriber>)
    ensures forall i, j :: 0 <= i < j < |FirstPaths(subs)| ==> FirstPaths(subs)[i] != FirstPaths(subs)[j]
    ensures forall p :: p in FirstPaths(subs) <==> HasPath(subs, p)
  {
    if |subs| > 0 {
      var n := |subs| - 1;
      FirstPathsExact(subs[..n]);
      assert forall i :: 0 <= i < n ==> subs[..n][i] == subs[i];
    }
  }

  /**
   * The paths come in order of first appearance: a path listed before
   * another first appears earlier among the subscribers.
   */
  lemma {:induction false} FirstPathsOrdered(subs: seq<Subscriber>, a: nat, b: nat)
    requires a < b < |FirstPaths(subs)|
    ensures exists i :: (0 <= i < |subs| && subs[i].path == FirstPaths(subs)[a]
      && forall j :: 0 <= j <= i ==> subs[j].path != FirstPaths(subs)[b])
  {
    var n := |subs| - 1;
    var r := FirstPaths(subs[..n]);
    assert forall i :: 0 <= i < n ==> subs[..n][i] == subs[i];
    FirstPathsExact(subs[..n]);
    if b < |r| {
      FirstPathsOrdered(subs[..n], a, b);
    } else {
      assert FirstPaths(subs)[b] == subs[n].path && subs[n].path !in r;
      assert HasPath(subs[..n], r[a]);
      var i :| 0 <= i < n && subs[..n][i].path == r[a];
      assert forall j :: 0 <= j < n ==> subs[j].path != subs[n].path by {
        forall j | 0 <= j < n ensures subs[j].path != subs[n].path {
          if subs[j].path == subs[n].path { assert HasPath(subs[..n], subs[n].path); }
        }
      }
    }
  }

  // ---------------------------------------------------------------------
  // The client's store and what replies and changes do to it
  // ---------------------------------------------------------------------

  /** The property cache: node path to property name to cached value. */
  type Cache = map<string, map<string, CacheVal>>

  /**
   * The part of the client a reply callback or a `CHG` line acts on: the
   * subscriber list, the next subscription id, the cache and the listener
   * calls made so far.
   */
  datatype Store = Store(subscribers: seq<Subscriber>, counter: int, cache: Cache, notes: seq<Notification>)

  /** Subscription ids increase along the list and stay below the next id. */
  predicate SubsValid(subs: seq<Subscriber>, counter: int) {
    IdsIncreasing(subs) && forall i :: 0 <= i < |subs| ==> subs[i].subscriptionId < counter
  }

  /**
   * The callback a reply block runs, on the store as it finds it: the
   * outcome it gives its promise and the store it leaves.
   */
  function HandlerEffect(h: Handler, data: seq<string>, s: Store): (r: (Outcome, Store))
    ensures r.0 == Pending <==> h.NoCallback?
    ensures r.0 == Thrown <==> (h.SetReply? || h.OpenReply?) && |data| == 0
    ensures SubsValid(s.subscribers, s.counter) ==> SubsValid(r.1.subscribers, r.1.counter)
    ensures s.notes <= r.1.notes && s.counter <= r.1.counter
    ensures r.1.subscribers == s.subscribers
      || (h.OpenReply? && r.0 == Resolved(SubscriptionId(s.counter)) && r.1.subscribers == s.subscribers
        + [Subscriber(h.path, h.property, h.value, h.listener, s.counter, h.count)])
  {
    match h
    case NoCallback => (Pending, s)
    case SetReply => (SetOutcome(data), s)
    case CallReply => (CallOutcome(data), s)
    case GetReply(node, prop) => GetEffect(node, prop, data, s)
    case FetchAllReply(path, listener) => FetchAllEffect(path, listener, data, s)
    case OpenReply(path, property, value, listener, count) => OpenEffect(path, property, value, listener, count, data, s)
    case CloseReply(path) =>
      if CloseAccepted(path, data) then (Resolved(Done), s.(cache := s.cache - {path}))
      else (Rejected(NoReason), s)
  }

  /** The GET callback: a resolved value is stored in the cache when the node is cached. */
  function GetEffect(node: string, prop: string, data: seq<string>, s: Store): (Outcome, Store) {
    var o := GetOutcome(data);
    (o, if o.Resolved? && node in s.cache then s.(cache := s.cache[node := s.cache[node][prop := CConv(o.answer.value)]]) else s)
  }

  /** The FETCHALL callback: every property line is stored and reported to the listener. */
  function FetchAllEffect(path: string, listener: CallbackId, data: seq<string>, s: Store): (Outcome, Store) {
    var pairs := Fetched(data);
    var cache := if path in s.cache then s.cache[path := StoreAll(s.cache[path], FetchedVals(pairs))] else s.cache;
    (FetchAllOutcome(data), s.(cache := cache, notes := s.notes + FetchNotified(path, listener, pairs)))
  }

  /** The OPEN callback: an accepted reply appends a subscriber under the next id. */
  function OpenEffect(path: string, property: string, value: string, listener: CallbackId, count: int,
                      data: seq<string>, s: Store): (Outcome, Store) {
    if |data| == 0 then (Thrown, s)
    else if !OpenAccepted(path, data) then (Rejected(NoReason), s)
    else
      var sub := Subscriber(path, property, value, listener, s.counter, count);
      var cache := if path in s.cache then s.cache else s.cache[path := map[]];
      (Resolved(SubscriptionId(s.counter)), Store(s.subscribers + [sub], s.counter + 1, cache, s.notes))
  }

  /** The request queue as `blockRcv` and the timer see it. */
  datatype Queue = Queue(waitList: seq<WaitItem>, written: seq<string>, cmdToSend: seq<string>, syncWaiters: nat)

  /** When `shift` holds and a line is queued, the first queued line is written. */
  function ShiftQueue(shift: bool, q: Queue): (r: Queue)
    ensures r.waitList == q.waitList && r.syncWaiters == q.syncWaiters
    ensures |r.written| + |r.cmdToSend| == |q.written| + |q.cmdToSend|
  {
    if shift && |q.cmdToSend| > 0 then q.(written := q.written + [q.cmdToSend[0]], cmdToSend := q.cmdToSend[1..])
    else q
  }

  /**
   * A reply block reaching the pending entry at `i`: the entry is spliced
   * out (and the next queued line written when `shift` holds), its callback
   * runs on the store; unless the callback throws, the entry after it is
   * spliced out too, a rejection with a reason rejects every sync waiter,
   * and with nothing left to send or to wait for the rest resolve. The
   * second component counts the sync waiters resolved.
   */
  function AnswerEffect(i: nat, data: seq<string>, shift: bool, q: Queue, s: Store): (r: (Outcome, nat, Queue, Store))
    requires i < |q.waitList|
    ensures r.0 == Thrown ==> r.1 == 0 && r.2.waitList == RemoveAt(q.waitList, i) && r.2.syncWaiters == q.syncWaiters
    ensures r.0 != Thrown ==> r.2.waitList == SpliceTwice(q.waitList, i)
    ensures r.1 > 0 ==> r.2.syncWaiters == 0 && r.2.cmdToSend == [] && r.2.waitList == []
    ensures (r.0, r.3) == HandlerEffect(q.waitList[i].handler, data, s)
  {
    var shifted := ShiftQueue(shift, q.(waitList := RemoveAt(q.waitList, i)));
    var effect := HandlerEffect(q.waitList[i].handler, data, s);
    if effect.0 == Thrown then (Thrown, 0, shifted, effect.1)
    else
      var left := if RejectsSync(effect.0) then 0 else q.syncWaiters;
      var waitList := SpliceTwice(q.waitList, i);
      var idle := |shifted.cmdToSend| == 0 && |waitList| == 0;
      (effect.0, if idle then left else 0, shifted.(waitList := waitList, syncWaiters := if idle then 0 else left), effect.1)
  }

  /**
   * What a `CHG node.property=value` line does to the store: the cache takes
   * the unescaped text as it came, the matching subscribers are notified and
   * charged, and the ones that run out are closed; the second component
   * lists the paths that then go out in `CLOSE` commands.
   */
  function ChgEffect(c: Change, s: Store): (r: (Store, seq<string>))
    ensures r.0.counter == s.counter
    ensures r.0.notes == s.notes + ChgNotified(s.subscribers, c)
  {
    var entry := if c.node in s.cache then s.cache[c.node] else map[];
    var closed := CloseAll(ChgUpdated(s.subscribers, c), ChgToClose(s.subscribers, c));
    (Store(closed.0, s.counter, s.cache[c.node := entry[c.prop := CStr(c.value)]], s.notes + ChgNotified(s.subscribers, c)), closed.1)
  }

  /**
   * A `CHG` line caches the unescaped text under its node and property,
   * whether or not the node was cached before, and leaves every other
   * node's entry alone.
   */
  lemma ChgEffectCache(c: Change, s: Store)
    ensures var t := ChgEffect(c, s).0.cache;
      c.node in t && c.prop in t[c.node] && t[c.node][c.prop] == CStr(c.value)
      && (forall n :: n != c.node ==> (n in t <==> n in s.cache))
      && (forall n :: n != c.node && n in s.cache ==> t[n] == s.cache[n])
  {
  }

  /** The connection as `cmdSend` reads and changes it. */
  datatype Wire = Wire(connected: bool, written: seq<string>, waitList: seq<WaitItem>, counter: nat)

  /**
   * One `cmdSend`: while connected, the line goes out under the counter's
   * signature, the request waits under that signature and the counter
   * advances modulo 0x10000; while disconnected nothing happens.
   */
  function SendOne(w: Wire, q: Request): (r: Wire)
    requires w.counter < SignatureModulus
    ensures r.counter < SignatureModulus && r.connected == w.connected
    ensures !w.connected ==> r == w
    ensures w.connected ==> w.written < r.written && w.waitList < r.waitList
  {
    if !w.connected then w
    else
      var signature := Hex4(w.counter);
      Wire(true, w.written + [Frame(signature, q.cmd)], w.waitList + [WaitItem(signature, q.handler)],
        (w.counter + 1) % SignatureModulus)
  }

  /** `cmdSend` for each request in turn. */
  function SendAll(w: Wire, reqs: seq<Request>): (r: Wire)
    requires w.counter < SignatureModulus
    ensures r.counter < SignatureModulus && r.connected == w.connected
  {
    if |reqs| == 0 then w
    else SendOne(SendAll(w, reqs[..|reqs| - 1]), reqs[|reqs| - 1])
  }

  /**
   * A `CHG` line seen by the client: one without `=` changes nothing;
   * otherwise the store changes as `ChgEffect` says and a `CLOSE` is sent
   * for each path it reports.
   */
  function ChgStep(data: string, s: Store, w: Wire): (r: (Store, Wire))
    requires w.counter < SignatureModulus
    ensures ParseChg(data).None? ==> r == (s, w)
    ensures r.1.connected == w.connected && r.1.counter < SignatureModulus
  {
    match ParseChg(data)
    case None => (s, w)
    case Some(c) =>
      var effect := ChgEffect(c, s);
      (effect.0, SendAll(w, CloseRequests(effect.1)))
  }

  lemma SendAllSnoc(w: Wire, reqs: seq<Request>, q: Request)
    requires w.counter < SignatureModulus
    ensures SendAll(w, reqs + [q]) == SendOne(SendAll(w, reqs), q)
  {
    assert (reqs + [q])[..|reqs|] == reqs;
  }

  /**
   * A run of `cmdSend` calls while connected appends exactly the framed
   * lines and wait entries, under consecutive signatures from the counter's
   * value; while disconnected it changes nothing.
   */
  lemma {:induction false} SendAllFrames(w: Wire, reqs: seq<Request>)
    requires w.counter < SignatureModulus
    ensures w.connected ==> (SendAll(w, reqs) ==
      Wire(true, w.written + Frames(reqs, w.counter), w.waitList + Waits(reqs, w.counter),
        (w.counter + |reqs|) % SignatureModulus))
    ensures !w.connected ==> SendAll(w, reqs) == w
  {
    if |reqs| > 0 {
      var n := |reqs| - 1;
      SendAllFrames(w, reqs[..n]);
      ModStep(w.counter + n);
    }
  }
}
