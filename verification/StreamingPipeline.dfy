/**
 * The streaming loop of the server: every parse of the text generated so far becomes a snapshot, gets
 * stable ids, and is sent as deltas. The client that folds the deltas never misses or repeats anything.
 */
module StreamingPipeline {
  import opened Common
  import opened ToolCallMapper
  import opened StreamGrowth
  import opened MessageDiff

  datatype Server = Server(ids: seq<string>, used: nat, chat: Message)

  function Stamp(m: Message, ids: seq<string>): Message
    requires |m.toolCalls| <= |ids|
  {
    m.(toolCalls := WithIds(m.toolCalls, ids))
  }

  /** One update: an empty message is skipped, any other is stamped, stored and compared with the last. */
  function Update(gen: IdStream, st: Server, m: Message): (Server, Result<seq<Diff>, DiffError>) {
    if m == EMPTY_MESSAGE then (st, Ok([]))
    else
      var (ids, used) := CacheIds(m.toolCalls, st.ids, gen, st.used);
      CacheGrows(m.toolCalls, st.ids, gen, st.used);
      var chat := Stamp(m, ids);
      (Server(ids, used, chat), Diffs(st.chat, chat))
  }

  class TaskState {
    const parse: JsonParser
    const cache: IdCache
    var chatMsg: Message

    constructor (parse: JsonParser, gen: IdStream)
      ensures fresh(cache) && cache.gen == gen && this.parse == parse
      ensures Abs() == Server([], 0, EMPTY_MESSAGE)
    {
      this.parse := parse;
      cache := new IdCache(gen);
      chatMsg := EMPTY_MESSAGE;
    }

    ghost function Abs(): Server
      reads this, cache
    {
      Server(cache.ids, cache.used, chatMsg)
    }

    method UpdateChatMsg(nodes: seq<Event>) returns (r: Result<seq<Diff>, DiffError>)
      requires NoDiscardedUse(NoCall, nodes)
      modifies this, cache
      ensures (Abs(), r) == Update(cache.gen, old(Abs()), Snapshot(parse, nodes))
      ensures Snapshot(parse, nodes) == EMPTY_MESSAGE ==> Abs() == old(Abs()) && r == Ok([])
    {
      var previous := chatMsg;
      var mapper := new Mapper(parse);
      mapper.FromAst(nodes);
      var newMsg := mapper.result;
      r := Ok([]);
      if newMsg != EMPTY_MESSAGE {
        var calls := cache.SetToolCallIds(newMsg.toolCalls);
        chatMsg := newMsg.(toolCalls := calls);
        r := ComputeDiffs(previous, chatMsg);
      }
    }
  }

  /** The whole conversation: after each parse the client folds the deltas it was sent. */
  function Stream(parse: JsonParser, gen: IdStream, st: Server, client: Message, parses: seq<seq<Event>>)
    : Result<(Server, Message), DiffError>
    decreases |parses|
  {
    if parses == [] then Ok((st, client))
    else
      var (st1, r) := Update(gen, st, Snapshot(parse, parses[0]));
      match r
      case Err(e) => Err(e)
      case Ok(ds) => Stream(parse, gen, st1, ApplyAll(client, ds), parses[1..])
  }

  /**
   * Parses that are well ordered, use no discarded call, and each grow out of the one before as far as the mapper
   * listens: nodes it does nothing with may come, go and grow anywhere.
   */
  predicate GrowingParses(parse: JsonParser, prev: seq<Event>, parses: seq<seq<Event>>)
    decreases |parses|
  {
    parses == [] ||
    (&& WellOrdered(FRESH, parses[0]) && NoDiscardedUse(NoCall, parses[0])
     && Grows(parse, Heard(prev), Heard(parses[0])) && GrowingParses(parse, parses[0], parses[1..]))
  }

  /** A call whose JSON arguments grow, each time followed by the nodes of their parts, is such a stream. */
  lemma JsonArgumentsStream(
      parse: JsonParser, open: Event, n: Event, e: Event, f: Event, parts: seq<Event>, parts': seq<Event>,
      close: Event)
    requires open.tag == ToolOpen && n.tag == ToolName && TrimEnd(n.text, -1) != "" && close.tag == ToolClose
    requires e.tag == f.tag == ToolArgs && IsJsonArgs(e) && e.text <= f.text
    requires (forall x | x in parts :: Inert(x)) && (forall x | x in parts' :: Inert(x))
    ensures GrowingParses(parse, [], [[open, n] + [e] + parts, [open, n] + [f] + parts' + [close]])
  {
    hide Grows, Heard, Inert;
    var es, fs := [open, n] + [e] + parts, [open, n] + [f] + parts' + [close];
    TrimEndMonotone(e.text, f.text);
    assert !Inert(e) && !Inert(f) by {
      StillJson(e, f);
    }
    PartsIgnored(parse, [open, n], e, f, parts, parts', [close]);
    FirstGrows(parse, Heard(es));
    JsonCallOrdered(open, n, e, parts, []);
    JsonCallOrdered(open, n, f, parts', [close]);
    assert es == [open, n] + [e] + parts + [];
    assert [es, fs][1..] == [fs] && [fs][1..] == [];
    assert GrowingParses(parse, es, [fs]);
  }

  lemma StillJson(e: Event, f: Event)
    requires e.tag == f.tag == ToolArgs && IsJsonArgs(e) && TrimEnd(e.text, -1) <= TrimEnd(f.text, -1)
    ensures IsJsonArgs(f) && !Inert(e) && !Inert(f)
  {
  }

  lemma FirstGrows(parse: JsonParser, es: seq<Event>)
    ensures Grows(parse, Heard([]), es)
  {
  }

  lemma JsonCallOrdered(open: Event, n: Event, e: Event, parts: seq<Event>, end: seq<Event>)
    requires open.tag == ToolOpen && n.tag == ToolName && TrimEnd(n.text, -1) != "" && e.tag == ToolArgs && !Inert(e)
    requires (forall x | x in parts :: Inert(x)) && (end == [] || (|end| == 1 && end[0].tag == ToolClose))
    ensures WellOrdered(FRESH, [open, n] + [e] + parts + end) && NoDiscardedUse(NoCall, [open, n] + [e] + parts + end)
  {
    hide Inert, WellOrdered, NoDiscardedUse, Heard, TrimEnd;
    var es := [open, n] + [e] + parts + end;
    HeardOne([open, n], e, parts + end);
    HeardConcat(parts, end);
    NothingHeard(parts);
    assert es == [open, n] + [e] + (parts + end);
    HeardFirst(open, n, end);
    WellOrderedHeard(FRESH, es);
    DiscardedHeard(NoCall, es);
    ShortCallOrdered(open, n, e, end);
  }

  lemma HeardFirst(open: Event, n: Event, end: seq<Event>)
    requires open.tag == ToolOpen && n.tag == ToolName && (end == [] || (|end| == 1 && end[0].tag == ToolClose))
    ensures Heard([open, n]) == [open, n] && Heard(end) == end && [] + end == end
  {
    assert [n][1..] == [] && Heard([n]) == [n] + Heard([]);
    assert [open, n][1..] == [n] && Heard([open, n]) == [open] + Heard([n]);
    assert [] + end == end;
    if end != [] {
      assert end[1..] == [] && Heard(end) == [end[0]] + Heard([]);
    }
  }

  lemma ShortCallOrdered(open: Event, n: Event, e: Event, end: seq<Event>)
    requires open.tag == ToolOpen && n.tag == ToolName && TrimEnd(n.text, -1) != "" && e.tag == ToolArgs
    requires end == [] || (|end| == 1 && end[0].tag == ToolClose)
    ensures WellOrdered(FRESH, [open, n] + [e] + end) && NoDiscardedUse(NoCall, [open, n] + [e] + end)
  {
    hide TrimEnd, Inert;
    var sc := FRESH.(named := true);
    var last := ScanStep(sc, e);
    assert WellOrdered(last, end) && NoDiscardedUse(Named, end) by {
      assert end != [] ==> end[1..] == [];
    }
    CallTail(sc, Named, e, end);
    CallTail(FRESH, Opened, n, [e] + end);
    CallTail(FRESH, NoCall, open, [n] + ([e] + end));
    assert [open, n] + [e] + end == [open] + ([n] + ([e] + end));
  }

  lemma CallTail(sc: Scan, p: Phase, e: Event, rest: seq<Event>)
    requires ScanOk(sc, e) && WellOrdered(ScanStep(sc, e), rest)
    requires p != Discarded && NoDiscardedUse(NextPhase(p, e.tag), rest)
    ensures WellOrdered(sc, [e] + rest) && NoDiscardedUse(p, [e] + rest)
  {
    assert ([e] + rest)[0] == e && ([e] + rest)[1..] == rest;
  }

  /** The stored message is the last snapshot with the ids of the cache. */
  predicate InSync(m: Message, st: Server) {
    |m.toolCalls| <= |st.ids| && st.chat == Stamp(m, st.ids)
  }

  lemma StampFollows(a: Message, b: Message, ids: seq<string>, ids': seq<string>)
    requires Extends(a, b) && ids <= ids' && |a.toolCalls| <= |ids| && |b.toolCalls| <= |ids'|
    ensures Follows(Stamp(a, ids), Stamp(b, ids'))
  {
  }

  lemma UpdateInSync(gen: IdStream, st: Server, a: Message, b: Message)
    requires InSync(a, st) && Extends(a, b)
    ensures var (st', r) := Update(gen, st, b);
            && InSync(b, st') && st.ids <= st'.ids
            && r.Ok? && ApplyAll(st.chat, r.value) == st'.chat
  {
    if b == EMPTY_MESSAGE {
      assert a == b;
    } else {
      var (ids, used) := CacheIds(b.toolCalls, st.ids, gen, st.used);
      CacheGrows(b.toolCalls, st.ids, gen, st.used);
      StampFollows(a, b, st.ids, ids);
      DiffsLossless(st.chat, Stamp(b, ids));
    }
  }

  lemma {:induction false} StreamFrom(
      parse: JsonParser, gen: IdStream, st: Server, prev: seq<Event>, parses: seq<seq<Event>>)
    requires InSync(Snapshot(parse, prev), st) && GrowingParses(parse, prev, parses)
    ensures var r := Stream(parse, gen, st, st.chat, parses);
            && r.Ok?
            && r.value.1 == r.value.0.chat
            && st.ids <= r.value.0.ids
            && InSync(Snapshot(parse, if parses == [] then prev else parses[|parses| - 1]), r.value.0)
    decreases |parses|
  {
    hide CallDiffs, Diffs, Extends, InSync, Update, Grows, Heard;
    if parses != [] {
      var next := parses[0];
      SnapshotsExtend(parse, prev, next);
      UpdateInSync(gen, st, Snapshot(parse, prev), Snapshot(parse, next));
      var (st1, r) := Update(gen, st, Snapshot(parse, next));
      StreamFrom(parse, gen, st1, next, parses[1..]);
    }
  }

  /**
   * Streaming is monotone and lossless: over any growing run of well-ordered parses no delta is ever
   * refused, and the client that started from nothing ends with exactly the server's message, which is
   * the last snapshot with the ids handed out.
   */
  lemma StreamingLossless(parse: JsonParser, gen: IdStream, parses: seq<seq<Event>>)
    requires GrowingParses(parse, [], parses) && parses != []
    ensures var r := Stream(parse, gen, Server([], 0, EMPTY_MESSAGE), EMPTY_MESSAGE, parses);
            && r.Ok?
            && var (st, client) := r.value;
               var final := Snapshot(parse, parses[|parses| - 1]);
            && |final.toolCalls| <= |st.ids|
            && client == Stamp(final, st.ids)
  {
    StreamFrom(parse, gen, Server([], 0, EMPTY_MESSAGE), [], parses);
  }

  /** An id once shown to the client is never changed by a later parse. */
  lemma IdsStable(parse: JsonParser, gen: IdStream, parses: seq<seq<Event>>, n: nat, i: nat)
    requires GrowingParses(parse, [], parses) && n <= |parses|
    ensures var shown := Stream(parse, gen, Server([], 0, EMPTY_MESSAGE), EMPTY_MESSAGE, parses[..n]);
            var last := Stream(parse, gen, Server([], 0, EMPTY_MESSAGE), EMPTY_MESSAGE, parses);
            && shown.Ok? && last.Ok?
            && (i < |shown.value.1.toolCalls| ==>
                  && i < |last.value.1.toolCalls|
                  && shown.value.1.toolCalls[i].id == last.value.1.toolCalls[i].id)
  {
    IdsStableFrom(parse, gen, Server([], 0, EMPTY_MESSAGE), [], parses, n, i);
  }

  lemma {:induction false} IdsStableFrom(
      parse: JsonParser, gen: IdStream, st: Server, prev: seq<Event>, parses: seq<seq<Event>>, n: nat, i: nat)
    requires InSync(Snapshot(parse, prev), st) && GrowingParses(parse, prev, parses) && n <= |parses|
    ensures var shown := Stream(parse, gen, st, st.chat, parses[..n]);
            var last := Stream(parse, gen, st, st.chat, parses);
            && shown.Ok? && last.Ok?
            && (i < |shown.value.1.toolCalls| ==>
                  && i < |last.value.1.toolCalls|
                  && shown.value.1.toolCalls[i].id == last.value.1.toolCalls[i].id)
    decreases |parses|
  {
    hide ApplyAll, Finish, Step, Update, WellOrdered, Grows, Heard;
    StreamFrom(parse, gen, st, prev, parses);
    if n == 0 {
      LaterCallsKept(parse, prev, parses);
    } else {
      var next := parses[0];
      SnapshotsExtend(parse, prev, next);
      UpdateInSync(gen, st, Snapshot(parse, prev), Snapshot(parse, next));
      var (st1, r) := Update(gen, st, Snapshot(parse, next));
      assert parses[..n][1..] == parses[1..][..n - 1];
      IdsStableFrom(parse, gen, st1, next, parses[1..], n - 1, i);
    }
  }

  /** Later snapshots never have fewer calls. */
  lemma {:induction false} LaterCallsKept(parse: JsonParser, prev: seq<Event>, parses: seq<seq<Event>>)
    requires GrowingParses(parse, prev, parses)
    ensures |Snapshot(parse, prev).toolCalls| <=
            |Snapshot(parse, if parses == [] then prev else parses[|parses| - 1]).toolCalls|
    decreases |parses|
  {
    if parses != [] {
      SnapshotsExtend(parse, prev, parses[0]);
      LaterCallsKept(parse, parses[0], parses[1..]);
    }
  }
}
