/**
 * What the merge state machine promises, stated about `Step` (one call of
 * `MergeEngine.Handle`) and `Run` (the calls the host makes over the
 * plugin's lifetime, in arrival order).
 */
module MergeProperties {
  import opened Strings
  import opened MessageMerger

  /** The tables and decisions after handling `evs` in order, starting from `s`. */
  ghost function Run(cfg: Config, s: State, evs: seq<Event>): (r: (State, seq<Decision>))
    requires Consistent(s)
    ensures Consistent(r.0) && |r.1| == |evs|
    decreases |evs|
  {
    if evs == [] then (s, [])
    else
      var first := Step(cfg, s, evs[0]);
      var rest := Run(cfg, first.0, evs[1..]);
      (rest.0, [first.1] + rest.1)
  }

  /** The contents of a run of events, in arrival order. */
  function Contents(evs: seq<Event>): (lines: seq<string>)
    ensures |lines| == |evs|
  {
    if evs == [] then [] else [evs[0].content] + Contents(evs[1..])
  }

  /** The events of session `sid`, in arrival order. */
  function Only(sid: string, evs: seq<Event>): (mine: seq<Event>)
    ensures |mine| <= |evs|
    ensures forall k :: 0 <= k < |mine| ==> mine[k].sessionId == sid
  {
    if evs == [] then []
    else (if evs[0].sessionId == sid then [evs[0]] else []) + Only(sid, evs[1..])
  }

  /** The entries of `xs` at the positions of session `sid`'s events. */
  function Pick<T>(sid: string, evs: seq<Event>, xs: seq<T>): (picked: seq<T>)
    requires |xs| == |evs|
    ensures |picked| == |Only(sid, evs)|
  {
    if evs == [] then []
    else (if evs[0].sessionId == sid then [xs[0]] else []) + Pick(sid, evs[1..], xs[1..])
  }

  /** Two states hold the same entries for session `sid`, as far as the
      plugin can read them (`last_message_time.get(sid, 0)`). */
  ghost predicate AgreeOn(s: State, t: State, sid: string)
  {
    && (sid in s.messages <==> sid in t.messages)
    && (sid in s.messages ==> s.messages[sid] == t.messages[sid])
    && LastTime(s.lastTime, sid) == LastTime(t.lastTime, sid)
    && (sid in s.merging <==> sid in t.merging)
  }

  /** A message that reaches the normal path: no trigger of any kind occurs in it. */
  predicate Plain(cfg: Config, content: string)
  {
    && !IsTrigger(cfg, content, StartTrigger)
    && !IsTrigger(cfg, content, EndTrigger)
    && !IsTrigger(cfg, content, InstantTrigger)
  }

  /** Event `k` arrives at most the merge interval after event `k - 1`. */
  ghost predicate CloseToPrevious(cfg: Config, evs: seq<Event>, k: int)
  {
    0 < k < |evs| && evs[k].now - evs[k - 1].now <= cfg.MergeInterval()
  }

  /** Every event arrives at most the merge interval after the one before. */
  ghost predicate Paced(cfg: Config, evs: seq<Event>)
  {
    forall k :: 0 < k < |evs| ==> CloseToPrevious(cfg, evs, k)
  }

  /** Outside merge mode, a session's buffer is shorter than the count threshold. */
  ghost predicate BuffersBelowCount(cfg: Config, s: State)
  {
    forall sid :: sid in s.messages && sid !in s.merging ==> |s.messages[sid]| < cfg.MessageCount()
  }

  // ---------------------------------------------------------------------
  // One call

  /** A missing trigger list reads as the empty list: nothing triggers. */
  lemma MissingTriggersNeverMatch(cfg: Config, content: string, kind: TriggerKind)
    requires (kind == StartTrigger && cfg.startTriggers.None?)
          || (kind == EndTrigger && cfg.endTriggers.None?)
          || (kind == InstantTrigger && cfg.instantTriggers.None?)
    ensures !IsTrigger(cfg, content, kind)
  {
  }

  /** Without a configuration document every text message takes the normal
      path, merged by count (6) and staleness (60) alone. */
  lemma EmptyConfigMergesByCountAndTime(content: string)
    ensures Plain(EmptyConfig, content)
    ensures EmptyConfig.MessageCount() == DefaultMessageCount == 6
    ensures EmptyConfig.MergeInterval() == DefaultMergeInterval == 60
  {
    MissingTriggersNeverMatch(EmptyConfig, content, StartTrigger);
    MissingTriggersNeverMatch(EmptyConfig, content, EndTrigger);
    MissingTriggersNeverMatch(EmptyConfig, content, InstantTrigger);
  }

  /** Non-text events leave every table alone. */
  lemma NonTextIgnored(cfg: Config, s: State, e: Event)
    requires Consistent(s) && e.ctype == NonText
    ensures Step(cfg, s, e) == (s, Ignore)
  {
  }

  /** A start trigger is tested first and always wins: the session enters
      merge mode with an empty buffer (dropping anything buffered, even in an
      ongoing merge), its time is not touched, and the message is dropped. */
  lemma StartTriggerBeginsMerge(cfg: Config, s: State, e: Event)
    requires Consistent(s) && e.ctype == Text
    requires IsTrigger(cfg, e.content, StartTrigger)
    ensures var r := Step(cfg, s, e);
      && r.1 == Suppress
      && r.0.merging == s.merging + {e.sessionId}
      && r.0.messages == s.messages[e.sessionId := []]
      && r.0.lastTime == s.lastTime
  {
  }

  /** In merge mode every message without a start trigger, end and instant
      triggers included, goes to the end of the buffer and is dropped. */
  lemma MergingBuffersEverything(cfg: Config, s: State, e: Event)
    requires Consistent(s) && e.ctype == Text
    requires !IsTrigger(cfg, e.content, StartTrigger) && e.sessionId in s.merging
    ensures var r := Step(cfg, s, e);
      && r.1 == Suppress
      && r.0.messages == s.messages[e.sessionId := s.messages[e.sessionId] + [e.content]]
      && r.0.lastTime == s.lastTime
      && r.0.merging == s.merging
  {
  }

  /** The end-trigger branch is only reached outside merge mode, where it
      drops the message and changes nothing. */
  lemma EndTriggerOutsideMergeIsNoOp(cfg: Config, s: State, e: Event)
    requires Consistent(s) && e.ctype == Text && e.sessionId !in s.merging
    requires !IsTrigger(cfg, e.content, StartTrigger) && IsTrigger(cfg, e.content, EndTrigger)
    ensures Step(cfg, s, e) == (s, Suppress)
  {
  }

  /** Hence a message with an end trigger is dropped in every state and never
      flushes a merge. */
  lemma EndTriggerNeverEmits(cfg: Config, s: State, e: Event)
    requires Consistent(s) && e.ctype == Text && IsTrigger(cfg, e.content, EndTrigger)
    ensures Step(cfg, s, e).1 == Suppress
  {
  }

  /** An instant trigger outside merge mode flushes the buffer followed by the
      trigger message when the session has a buffer entry (even an empty one);
      a session without one gets nothing and nothing changes. */
  lemma InstantTriggerFlushes(cfg: Config, s: State, e: Event)
    requires Consistent(s) && e.ctype == Text && e.sessionId !in s.merging
    requires !IsTrigger(cfg, e.content, StartTrigger) && !IsTrigger(cfg, e.content, EndTrigger)
    requires IsTrigger(cfg, e.content, InstantTrigger)
    ensures var r := Step(cfg, s, e);
      && (e.sessionId in s.messages ==>
            && r.1 == Emit(Join(s.messages[e.sessionId] + [e.content]))
            && r.0 == s.(messages := s.messages[e.sessionId := []]))
      && (e.sessionId !in s.messages ==> r == (s, Suppress))
  {
  }

  /** With a buffer entry that is already empty, the instant trigger emits
      just the trigger message itself. */
  lemma InstantTriggerOnEmptyBuffer(cfg: Config, s: State, e: Event)
    requires Consistent(s) && e.ctype == Text && e.sessionId !in s.merging
    requires !IsTrigger(cfg, e.content, StartTrigger) && !IsTrigger(cfg, e.content, EndTrigger)
    requires IsTrigger(cfg, e.content, InstantTrigger)
    requires e.sessionId in s.messages && s.messages[e.sessionId] == []
    ensures Step(cfg, s, e).1 == Emit(e.content)
  {
    assert [] + [e.content] == [e.content];
  }

  /** A normal message restarts the buffer exactly when the session has none
      or its last message is more than the interval old (strictly), and
      stamps the session's time; the session flushes the buffer followed by
      the message exactly when the count is reached, and otherwise keeps the
      message as the last buffered line. */
  lemma NormalMessageBuffers(cfg: Config, s: State, e: Event)
    requires Consistent(s) && e.ctype == Text && e.sessionId !in s.merging
    requires Plain(cfg, e.content)
    ensures var sid := e.sessionId;
      var r := Step(cfg, s, e);
      var stale := sid !in s.messages || e.now - LastTime(s.lastTime, sid) > cfg.MergeInterval();
      var buf := (if stale then [] else s.messages[sid]) + [e.content];
      && r.0.lastTime == s.lastTime[sid := e.now]
      && r.0.merging == s.merging
      && (r.1.Emit? <==> |buf| >= cfg.MessageCount())
      && (r.1.Emit? ==> r.1 == Emit(Join(buf)) && r.0.messages == s.messages[sid := []])
      && (!r.1.Emit? ==> r.1 == Suppress && r.0.messages == s.messages[sid := buf])
  {
  }

  /** After any flush the session's buffer is empty. */
  lemma EmitEmptiesBuffer(cfg: Config, s: State, e: Event)
    requires Consistent(s)
    requires Step(cfg, s, e).1.Emit?
    ensures var r := Step(cfg, s, e);
      e.sessionId in r.0.messages && r.0.messages[e.sessionId] == [] && e.sessionId !in r.0.merging
  {
  }

  /** A call reads and writes only its own session's entries. */
  lemma StepIsolatesSessions(cfg: Config, s: State, e: Event)
    requires Consistent(s)
    ensures var r := Step(cfg, s, e);
      && r.0.messages - {e.sessionId} == s.messages - {e.sessionId}
      && r.0.lastTime - {e.sessionId} == s.lastTime - {e.sessionId}
      && r.0.merging - {e.sessionId} == s.merging - {e.sessionId}
  {
  }

  /** The same, one other session at a time. */
  lemma StepLeavesOtherSessions(cfg: Config, s: State, e: Event, sid: string)
    requires Consistent(s) && sid != e.sessionId
    ensures AgreeOn(Step(cfg, s, e).0, s, sid)
  {
  }

  /** The decision and the session's new entries depend only on the
      session's own entries before the call. */
  lemma StepReadsOwnSession(cfg: Config, s: State, t: State, e: Event)
    requires Consistent(s) && Consistent(t) && AgreeOn(s, t, e.sessionId)
    ensures Step(cfg, s, e).1 == Step(cfg, t, e).1
    ensures AgreeOn(Step(cfg, s, e).0, Step(cfg, t, e).0, e.sessionId)
  {
  }

  /** A session never leaves merge mode, and a merging session's messages are
      never answered. */
  lemma MergeModeIsPermanent(cfg: Config, s: State, e: Event, sid: string)
    requires Consistent(s) && sid in s.merging
    ensures sid in Step(cfg, s, e).0.merging
    ensures e.sessionId == sid ==> !Step(cfg, s, e).1.Emit?
  {
  }

  /** With a positive count threshold, every call keeps the buffers outside
      merge mode below the threshold. */
  lemma StepKeepsBuffersBelowCount(cfg: Config, s: State, e: Event)
    requires Consistent(s) && cfg.MessageCount() >= 1 && BuffersBelowCount(cfg, s)
    ensures BuffersBelowCount(cfg, Step(cfg, s, e).0)
  {
  }

  // ---------------------------------------------------------------------
  // Runs of calls

  lemma {:induction false} RunSnoc(cfg: Config, s: State, evs: seq<Event>, e: Event)
    requires Consistent(s)
    ensures var r := Run(cfg, s, evs);
      var last := Step(cfg, r.0, e);
      Run(cfg, s, evs + [e]) == (last.0, r.1 + [last.1])
    decreases |evs|
  {
    if evs == [] {
      var last := Step(cfg, s, e);
      var es := evs + [e];
      assert es[0] == e && es[1..] == [];
      assert Run(cfg, last.0, es[1..]) == (last.0, []);
      assert Run(cfg, s, es) == (last.0, [last.1] + []);
      assert [last.1] + [] == Run(cfg, s, evs).1 + [last.1];
    } else {
      var first := Step(cfg, s, evs[0]);
      assert (evs + [e])[0] == evs[0];
      assert (evs + [e])[1..] == evs[1..] + [e];
      RunSnoc(cfg, first.0, evs[1..], e);
      var rest := Run(cfg, first.0, evs[1..]);
      var last := Step(cfg, rest.0, e);
      assert Run(cfg, s, evs + [e]) == (last.0, [first.1] + (rest.1 + [last.1]));
      assert Run(cfg, s, evs) == (rest.0, [first.1] + rest.1);
      assert [first.1] + (rest.1 + [last.1]) == ([first.1] + rest.1) + [last.1];
    }
  }

  /** Once in merge mode, a session stays there for every later event, and
      none of its own messages is ever answered. */
  lemma {:induction false} MergeModeOutlastsRun(cfg: Config, s: State, evs: seq<Event>, sid: string)
    requires Consistent(s) && sid in s.merging
    ensures var r := Run(cfg, s, evs);
      && sid in r.0.merging
      && forall k :: 0 <= k < |evs| && evs[k].sessionId == sid ==> !r.1[k].Emit?
    decreases |evs|
  {
    if evs != [] {
      var s1 := Step(cfg, s, evs[0]).0;
      MergeModeIsPermanent(cfg, s, evs[0], sid);
      MergeModeOutlastsRun(cfg, s1, evs[1..], sid);
      var r := Run(cfg, s, evs);
      forall k | 0 <= k < |evs| && evs[k].sessionId == sid
        ensures !r.1[k].Emit?
      {
        if k > 0 {
          assert evs[k] == evs[1..][k - 1];
        }
      }
    }
  }

  /** In merge mode, the session's messages (end and instant triggers
      included) pile up in its buffer in arrival order, all dropped, as long
      as none carries a start trigger. */
  lemma {:induction false} MergeModeCollects(cfg: Config, s: State, sid: string, evs: seq<Event>)
    requires Consistent(s) && sid in s.merging
    requires forall k :: 0 <= k < |evs| ==>
      evs[k].ctype == Text && evs[k].sessionId == sid && !IsTrigger(cfg, evs[k].content, StartTrigger)
    ensures var r := Run(cfg, s, evs);
      && sid in r.0.merging
      && r.0.messages[sid] == s.messages[sid] + Contents(evs)
      && forall k :: 0 <= k < |evs| ==> r.1[k] == Suppress
    decreases |evs|
  {
    if evs != [] {
      var s1 := Step(cfg, s, evs[0]).0;
      assert s1.messages[sid] == s.messages[sid] + [evs[0].content];
      assert forall k :: 0 <= k < |evs| - 1 ==> evs[1..][k] == evs[k + 1];
      MergeModeCollects(cfg, s1, sid, evs[1..]);
      assert Contents(evs) == [evs[0].content] + Contents(evs[1..]);
    }
  }

  /** One plain message within the interval that does not reach the count. */
  lemma PlainMessageAppends(cfg: Config, s: State, sid: string, e: Event)
    requires Consistent(s) && sid !in s.merging && sid in s.messages && sid in s.lastTime
    requires e.ctype == Text && e.sessionId == sid && Plain(cfg, e.content)
    requires e.now - s.lastTime[sid] <= cfg.MergeInterval()
    requires |s.messages[sid]| + 1 < cfg.MessageCount()
    ensures Step(cfg, s, e)
         == (State(s.messages[sid := s.messages[sid] + [e.content]], s.lastTime[sid := e.now], s.merging), Suppress)
  {
  }

  /** Outside merge mode, plain messages that each arrive within the interval
      of the one before are appended in arrival order and dropped, while the
      buffer stays below the count. */
  lemma {:induction false} PlainMessagesAccumulate(cfg: Config, s: State, sid: string, evs: seq<Event>)
    requires Consistent(s) && sid !in s.merging && sid in s.messages && sid in s.lastTime
    requires forall k :: 0 <= k < |evs| ==>
      evs[k].ctype == Text && evs[k].sessionId == sid && Plain(cfg, evs[k].content)
    requires |evs| > 0 ==> evs[0].now - s.lastTime[sid] <= cfg.MergeInterval()
    requires Paced(cfg, evs)
    requires |s.messages[sid]| + |evs| < cfg.MessageCount()
    ensures var r := Run(cfg, s, evs);
      && sid !in r.0.merging
      && sid in r.0.messages
      && r.0.messages[sid] == s.messages[sid] + Contents(evs)
      && sid in r.0.lastTime
      && r.0.lastTime[sid] == (if evs == [] then s.lastTime[sid] else evs[|evs| - 1].now)
      && forall k :: 0 <= k < |evs| ==> r.1[k] == Suppress
    decreases |evs|
  {
    if evs != [] {
      var tail := evs[1..];
      var s1 := State(s.messages[sid := s.messages[sid] + [evs[0].content]], s.lastTime[sid := evs[0].now], s.merging);
      assert Step(cfg, s, evs[0]) == (s1, Suppress) by {
        PlainMessageAppends(cfg, s, sid, evs[0]);
      }
      assert forall k :: 0 <= k < |tail| ==>
          tail[k].ctype == Text && tail[k].sessionId == sid && Plain(cfg, tail[k].content);
      assert Paced(cfg, tail) by {
        forall k | 0 < k < |tail|
          ensures CloseToPrevious(cfg, tail, k)
        {
          assert CloseToPrevious(cfg, evs, k + 1);
        }
      }
      assert |tail| > 0 ==> tail[0].now - s1.lastTime[sid] <= cfg.MergeInterval() by {
        if |tail| > 0 {
          assert CloseToPrevious(cfg, evs, 1);
        }
      }
      PlainMessagesAccumulate(cfg, s1, sid, tail);
      var rest := Run(cfg, s1, tail);
      assert Run(cfg, s, evs) == (rest.0, [Suppress] + rest.1);
      assert tail != [] ==> tail[|tail| - 1] == evs[|evs| - 1];
      assert Contents(evs) == [evs[0].content] + Contents(tail);
      calc {
        rest.0.messages[sid];
        (s.messages[sid] + [evs[0].content]) + Contents(tail);
        s.messages[sid] + ([evs[0].content] + Contents(tail));
      }
    }
  }

  lemma {:induction false} ContentsSnoc(evs: seq<Event>, e: Event)
    ensures Contents(evs + [e]) == Contents(evs) + [e.content]
    decreases |evs|
  {
    if evs == [] {
      assert evs + [e] == [e] && [e][1..] == [];
    } else {
      assert (evs + [e])[0] == evs[0];
      assert (evs + [e])[1..] == evs[1..] + [e];
      ContentsSnoc(evs[1..], e);
    }
  }

  /** From a session with nothing buffered (no entry yet, or the empty entry
      every flush leaves), plain messages close enough together and fewer
      than the count are buffered in arrival order and all dropped. */
  lemma PlainMessagesFromScratch(cfg: Config, s: State, sid: string, evs: seq<Event>)
    requires Consistent(s) && sid !in s.merging && (sid !in s.messages || s.messages[sid] == [])
    requires |evs| >= 1
    requires forall k :: 0 <= k < |evs| ==>
      evs[k].ctype == Text && evs[k].sessionId == sid && Plain(cfg, evs[k].content)
    requires Paced(cfg, evs)
    requires |evs| < cfg.MessageCount()
    ensures var r := Run(cfg, s, evs);
      && sid !in r.0.merging
      && sid in r.0.messages && r.0.messages[sid] == Contents(evs)
      && sid in r.0.lastTime && r.0.lastTime[sid] == evs[|evs| - 1].now
      && r.1 == seq(|evs|, _ => Suppress)
  {
    var tail := evs[1..];
    var s1 := State(s.messages[sid := [evs[0].content]], s.lastTime[sid := evs[0].now], s.merging);
    assert Step(cfg, s, evs[0]) == (s1, Suppress) by {
      assert [] + [evs[0].content] == [evs[0].content];
    }
    assert forall k :: 0 <= k < |tail| ==>
        tail[k].ctype == Text && tail[k].sessionId == sid && Plain(cfg, tail[k].content);
    assert Paced(cfg, tail) by {
      forall k | 0 < k < |tail|
        ensures CloseToPrevious(cfg, tail, k)
      {
        assert CloseToPrevious(cfg, evs, k + 1);
      }
    }
    assert |tail| > 0 ==> tail[0].now - s1.lastTime[sid] <= cfg.MergeInterval() by {
      if |tail| > 0 {
        assert CloseToPrevious(cfg, evs, 1);
      }
    }
    PlainMessagesAccumulate(cfg, s1, sid, tail);
    var rest := Run(cfg, s1, tail);
    assert Run(cfg, s, evs) == (rest.0, [Suppress] + rest.1);
    assert tail != [] ==> tail[|tail| - 1] == evs[|evs| - 1];
  }

  /** From a session with nothing buffered (no entry yet, or the empty entry
      every flush leaves), plain messages close enough together and fewer
      than the count are all dropped; an instant trigger then emits
      them and itself, newline-joined in arrival order, and the lines can be
      read back from the merged text when none contains a newline. */
  lemma OrderPreservedThroughInstantTrigger(cfg: Config, s: State, sid: string, evs: seq<Event>, e: Event)
    requires Consistent(s) && sid !in s.merging && (sid !in s.messages || s.messages[sid] == [])
    requires |evs| >= 1
    requires forall k :: 0 <= k < |evs| ==>
      evs[k].ctype == Text && evs[k].sessionId == sid && Plain(cfg, evs[k].content)
    requires Paced(cfg, evs)
    requires |evs| < cfg.MessageCount()
    requires e.ctype == Text && e.sessionId == sid
    requires !IsTrigger(cfg, e.content, StartTrigger) && !IsTrigger(cfg, e.content, EndTrigger)
    requires IsTrigger(cfg, e.content, InstantTrigger)
    ensures var r := Run(cfg, s, evs + [e]);
      && r.1 == seq(|evs|, _ => Suppress) + [Emit(Join(Contents(evs + [e])))]
      && sid in r.0.messages && r.0.messages[sid] == []
    ensures NoNewline(Contents(evs + [e])) ==> Split(Join(Contents(evs + [e]))) == Contents(evs + [e])
  {
    PlainMessagesFromScratch(cfg, s, sid, evs);
    RunSnoc(cfg, s, evs, e);
    ContentsSnoc(evs, e);
    if NoNewline(Contents(evs + [e])) {
      SplitJoin(Contents(evs + [e]));
    }
  }

  /** From a session with nothing buffered (no entry yet, or the empty entry
      every flush leaves), `n` plain messages close enough
      together, `n` the count threshold, give `n - 1` drops and then one
      emission of all of them in arrival order. */
  lemma CountFlushesInOrder(cfg: Config, s: State, sid: string, evs: seq<Event>)
    requires Consistent(s) && sid !in s.merging && (sid !in s.messages || s.messages[sid] == [])
    requires |evs| == cfg.MessageCount() >= 1
    requires forall k :: 0 <= k < |evs| ==>
      evs[k].ctype == Text && evs[k].sessionId == sid && Plain(cfg, evs[k].content)
    requires Paced(cfg, evs)
    ensures var r := Run(cfg, s, evs);
      && r.1 == seq(|evs| - 1, _ => Suppress) + [Emit(Join(Contents(evs)))]
      && sid in r.0.messages && r.0.messages[sid] == [] && sid !in r.0.merging
  {
    var n := |evs|;
    var init, e := evs[..n - 1], evs[n - 1];
    assert evs == init + [e];
    RunSnoc(cfg, s, init, e);
    ContentsSnoc(init, e);
    if n == 1 {
      assert init == [];
      assert [] + [e.content] == [e.content];
    } else {
      assert forall k :: 0 <= k < |init| ==> init[k] == evs[k];
      assert Paced(cfg, init) by {
        forall k | 0 < k < |init|
          ensures CloseToPrevious(cfg, init, k)
        {
          assert CloseToPrevious(cfg, evs, k);
        }
      }
      PlainMessagesFromScratch(cfg, s, sid, init);
      assert CloseToPrevious(cfg, evs, n - 1);
    }
  }

  lemma {:induction false} RunAppend(cfg: Config, s: State, a: seq<Event>, b: seq<Event>)
    requires Consistent(s)
    ensures var ra := Run(cfg, s, a);
      var rb := Run(cfg, ra.0, b);
      Run(cfg, s, a + b) == (rb.0, ra.1 + rb.1)
    decreases |a|
  {
    if a == [] {
      assert a + b == b;
      assert [] + Run(cfg, s, b).1 == Run(cfg, s, b).1;
    } else {
      var first := Step(cfg, s, a[0]);
      assert (a + b)[0] == a[0] && (a + b)[1..] == a[1..] + b;
      RunAppend(cfg, first.0, a[1..], b);
      var ra := Run(cfg, first.0, a[1..]);
      var rb := Run(cfg, ra.0, b);
      assert [first.1] + (ra.1 + rb.1) == ([first.1] + ra.1) + rb.1;
    }
  }

  /** A flush leaves nothing behind, so the next batch starts its count
      afresh however long after the flush it arrives: two batches of `n`
      plain messages, `n` the count threshold, flush separately, each in
      arrival order. */
  lemma CountFlushesBatchAfterBatch(cfg: Config, s: State, sid: string, first: seq<Event>, second: seq<Event>)
    requires Consistent(s) && sid !in s.merging && (sid !in s.messages || s.messages[sid] == [])
    requires |first| == |second| == cfg.MessageCount() >= 1
    requires forall k :: 0 <= k < |first| ==>
      first[k].ctype == Text && first[k].sessionId == sid && Plain(cfg, first[k].content)
    requires forall k :: 0 <= k < |second| ==>
      second[k].ctype == Text && second[k].sessionId == sid && Plain(cfg, second[k].content)
    requires Paced(cfg, first) && Paced(cfg, second)
    ensures var n := cfg.MessageCount();
      Run(cfg, s, first + second).1
        == seq(n - 1, _ => Suppress) + [Emit(Join(Contents(first)))]
         + seq(n - 1, _ => Suppress) + [Emit(Join(Contents(second)))]
  {
    RunAppend(cfg, s, first, second);
    CountFlushesInOrder(cfg, s, sid, first);
    CountFlushesInOrder(cfg, Run(cfg, s, first).0, sid, second);
  }

  /** Starting from the empty tables with a positive count threshold, every
      buffer outside merge mode stays below the threshold for ever. */
  lemma {:induction false} RunKeepsBuffersBelowCount(cfg: Config, s: State, evs: seq<Event>)
    requires Consistent(s) && cfg.MessageCount() >= 1 && BuffersBelowCount(cfg, s)
    ensures BuffersBelowCount(cfg, Run(cfg, s, evs).0)
    decreases |evs|
  {
    if evs != [] {
      StepKeepsBuffersBelowCount(cfg, s, evs[0]);
      RunKeepsBuffersBelowCount(cfg, Step(cfg, s, evs[0]).0, evs[1..]);
    }
  }

  lemma InitialRunKeepsBuffersBelowCount(cfg: Config, evs: seq<Event>)
    requires cfg.MessageCount() >= 1
    ensures BuffersBelowCount(cfg, Run(cfg, InitialState, evs).0)
  {
    RunKeepsBuffersBelowCount(cfg, InitialState, evs);
  }

  // ---------------------------------------------------------------------
  // Interleaved sessions

  /** Other sessions' traffic is invisible to a session: over any interleaving,
      the decisions at `sid`'s positions are those of `sid`'s events run
      alone, from any state that agrees on `sid`, and `sid`'s final entries
      agree too. */
  lemma {:induction false} RunProjects(cfg: Config, s: State, t: State, sid: string, evs: seq<Event>)
    requires Consistent(s) && Consistent(t) && AgreeOn(s, t, sid)
    ensures var r := Run(cfg, s, evs);
      var alone := Run(cfg, t, Only(sid, evs));
      Pick(sid, evs, r.1) == alone.1 && AgreeOn(r.0, alone.0, sid)
    decreases |evs|
  {
    if evs != [] {
      var e, rest := evs[0], evs[1..];
      var first := Step(cfg, s, e);
      var r := Run(cfg, s, evs);
      var after := Run(cfg, first.0, rest);
      assert r == (after.0, [first.1] + after.1);
      assert r.1[0] == first.1 && r.1[1..] == after.1;
      if e.sessionId == sid {
        var tFirst := Step(cfg, t, e);
        StepReadsOwnSession(cfg, s, t, e);
        RunProjects(cfg, first.0, tFirst.0, sid, rest);
        var mine := Only(sid, evs);
        assert mine == [e] + Only(sid, rest);
        assert mine[0] == e && mine[1..] == Only(sid, rest);
      } else {
        StepLeavesOtherSessions(cfg, s, e, sid);
        RunProjects(cfg, first.0, t, sid, rest);
        assert Only(sid, evs) == [] + Only(sid, rest);
        assert [] + Only(sid, rest) == Only(sid, rest);
      }
    }
  }

  /** Hence `CountFlushesInOrder` holds amid other sessions' traffic: the
      session's own `n` messages, `n` the count threshold, give `n - 1` drops
      and then one emission of all of them in arrival order. */
  lemma InterleavedCountFlush(cfg: Config, s: State, sid: string, evs: seq<Event>)
    requires Consistent(s) && sid !in s.merging && (sid !in s.messages || s.messages[sid] == [])
    requires |Only(sid, evs)| == cfg.MessageCount() >= 1
    requires forall k :: 0 <= k < |Only(sid, evs)| ==>
      Only(sid, evs)[k].ctype == Text && Plain(cfg, Only(sid, evs)[k].content)
    requires Paced(cfg, Only(sid, evs))
    ensures var r := Run(cfg, s, evs);
      && Pick(sid, evs, r.1) == seq(cfg.MessageCount() - 1, _ => Suppress) + [Emit(Join(Contents(Only(sid, evs))))]
      && sid in r.0.messages && r.0.messages[sid] == []
  {
    RunProjects(cfg, s, s, sid, evs);
    CountFlushesInOrder(cfg, s, sid, Only(sid, evs));
  }

  /** Hence `MergeModeCollects` holds amid other sessions' traffic: a merging
      session's own messages pile up in its buffer in arrival order, all
      dropped. */
  lemma InterleavedMergeModeCollects(cfg: Config, s: State, sid: string, evs: seq<Event>)
    requires Consistent(s) && sid in s.merging
    requires forall k :: 0 <= k < |Only(sid, evs)| ==>
      Only(sid, evs)[k].ctype == Text && !IsTrigger(cfg, Only(sid, evs)[k].content, StartTrigger)
    ensures var r := Run(cfg, s, evs);
      && sid in r.0.merging
      && r.0.messages[sid] == s.messages[sid] + Contents(Only(sid, evs))
      && forall k :: 0 <= k < |Only(sid, evs)| ==> Pick(sid, evs, r.1)[k] == Suppress
  {
    RunProjects(cfg, s, s, sid, evs);
    MergeModeCollects(cfg, s, sid, Only(sid, evs));
  }

  // ---------------------------------------------------------------------
  // Concrete runs

  /** The decisions of a run of four events, one step at a time. */
  lemma RunOfFour(cfg: Config, s: State, e0: Event, e1: Event, e2: Event, e3: Event)
    requires Consistent(s)
    ensures var r0 := Step(cfg, s, e0);
      var r1 := Step(cfg, r0.0, e1);
      var r2 := Step(cfg, r1.0, e2);
      var r3 := Step(cfg, r2.0, e3);
      Run(cfg, s, [e0, e1, e2, e3]) == (r3.0, [r0.1, r1.1, r2.1, r3.1])
  {
    var r0 := Step(cfg, s, e0);
    var r1 := Step(cfg, r0.0, e1);
    var r2 := Step(cfg, r1.0, e2);
    var r3 := Step(cfg, r2.0, e3);
    var evs := [e0, e1, e2, e3];
    assert evs[1..] == [e1, e2, e3] && evs[1..][1..] == [e2, e3] && evs[1..][1..][1..] == [e3];
    assert [e3][1..] == [] && [e3][0] == e3;
    assert Run(cfg, r3.0, []) == (r3.0, []);
    assert Run(cfg, r2.0, [e3]) == (r3.0, [r3.1] + []);
    assert [r3.1] + [] == [r3.1];
    assert Run(cfg, r1.0, [e2, e3]) == (r3.0, [r2.1] + [r3.1]);
    assert [r2.1] + [r3.1] == [r2.1, r3.1];
    assert Run(cfg, r0.0, [e1, e2, e3]) == (r3.0, [r1.1] + [r2.1, r3.1]);
    assert [r1.1] + [r2.1, r3.1] == [r1.1, r2.1, r3.1];
    assert Run(cfg, s, evs) == (r3.0, [r0.1] + [r1.1, r2.1, r3.1]);
    assert [r0.1] + [r1.1, r2.1, r3.1] == [r0.1, r1.1, r2.1, r3.1];
  }

  /** Count threshold 3, no triggers: "a", "b", "c" give two drops and then
      the three lines joined. */
  lemma CountFlushExample()
    ensures var cfg := Config(None, None, None, None, Some(3));
      var evs := [Event(Text, "u", "a", 0), Event(Text, "u", "b", 0), Event(Text, "u", "c", 0)];
      Run(cfg, InitialState, evs).1 == [Suppress, Suppress, Emit("a\nb\nc")]
  {
    var cfg := Config(None, None, None, None, Some(3));
    var evs := [Event(Text, "u", "a", 0), Event(Text, "u", "b", 0), Event(Text, "u", "c", 0)];
    forall k | 0 <= k < |evs|
      ensures Plain(cfg, evs[k].content)
    {
      MissingTriggersNeverMatch(cfg, evs[k].content, StartTrigger);
      MissingTriggersNeverMatch(cfg, evs[k].content, EndTrigger);
      MissingTriggersNeverMatch(cfg, evs[k].content, InstantTrigger);
    }
    assert Paced(cfg, evs) by {
      assert CloseToPrevious(cfg, evs, 1) && CloseToPrevious(cfg, evs, 2);
    }
    CountFlushesInOrder(cfg, InitialState, "u", evs);
    assert evs[1..] == [evs[1], evs[2]] && evs[1..][1..] == [evs[2]];
    assert Contents(evs) == ["a", "b", "c"];
    assert ["a", "b", "c"][1..] == ["b", "c"] && ["b", "c"][1..] == ["c"];
    assert Join(["a", "b", "c"]) == "a\nb\nc";
    assert seq(2, _ => Suppress) == [Suppress, Suppress];
  }

  /** Default interval 60, count threshold 3: "a" at 0 is discarded when "b"
      arrives at 100, so it takes "b", "c" and "d" to reach the threshold. */
  lemma StaleBufferExample()
    ensures var cfg := Config(None, None, None, None, Some(3));
      var evs := [Event(Text, "u", "a", 0), Event(Text, "u", "b", 100),
                  Event(Text, "u", "c", 101), Event(Text, "u", "d", 102)];
      Run(cfg, InitialState, evs).1 == [Suppress, Suppress, Suppress, Emit("b\nc\nd")]
  {
    var cfg := Config(None, None, None, None, Some(3));
    var e0, e1, e2, e3 := Event(Text, "u", "a", 0), Event(Text, "u", "b", 100),
                          Event(Text, "u", "c", 101), Event(Text, "u", "d", 102);
    var s1 := Step(cfg, InitialState, e0);
    assert s1.0.messages["u"] == ["a"] && s1.0.lastTime["u"] == 0 && s1.0.merging == {} && s1.1 == Suppress;
    var s2 := Step(cfg, s1.0, e1);
    assert s2.0.messages["u"] == ["b"] && s2.0.lastTime["u"] == 100 && s2.0.merging == {} && s2.1 == Suppress;
    var s3 := Step(cfg, s2.0, e2);
    assert s3.0.messages["u"] == ["b", "c"] && s3.0.lastTime["u"] == 101 && s3.0.merging == {} && s3.1 == Suppress;
    var s4 := Step(cfg, s3.0, e3);
    assert s4.1 == Emit(Join(["b", "c"] + ["d"]));
    assert ["b", "c"] + ["d"] == ["b", "c", "d"];
    assert ["b", "c", "d"][1..] == ["c", "d"] && ["c", "d"][1..] == ["d"];
    assert Join(["b", "c", "d"]) == "b\nc\nd";
    RunOfFour(cfg, InitialState, e0, e1, e2, e3);
  }

  /** Start trigger "#merge_start", end trigger "#merge_end": the end trigger
      sent after "x" and "y" is buffered like any other line, and nothing is
      emitted. */
  lemma EndTriggerSwallowedExample()
    ensures var cfg := Config(Some(["#merge_start"]), Some(["#merge_end"]), None, None, None);
      var evs := [Event(Text, "u", "#merge_start", 0), Event(Text, "u", "x", 1),
                  Event(Text, "u", "y", 2), Event(Text, "u", "#merge_end", 3)];
      var r := Run(cfg, InitialState, evs);
      && r.1 == [Suppress, Suppress, Suppress, Suppress]
      && "u" in r.0.merging
      && r.0.messages["u"] == ["x", "y", "#merge_end"]
  {
    var cfg := Config(Some(["#merge_start"]), Some(["#merge_end"]), None, None, None);
    var e0, e1, e2, e3 := Event(Text, "u", "#merge_start", 0), Event(Text, "u", "x", 1),
                          Event(Text, "u", "y", 2), Event(Text, "u", "#merge_end", 3);
    var evs := [e0, e1, e2, e3];
    assert Occurs("#merge_start", "#merge_start");
    assert "#merge_start" in cfg.Triggers(StartTrigger);
    var first := Step(cfg, InitialState, e0);
    assert first.0.messages["u"] == [] && first.0.merging == {"u"} && first.1 == Suppress;
    var tail := evs[1..];
    assert tail == [e1, e2, e3] && tail[1..] == [e2, e3] && tail[1..][1..] == [e3];
    assert !Occurs("#merge_start", "x") && !Occurs("#merge_start", "y");
    assert !Occurs("#merge_start", "#merge_end");
    assert cfg.Triggers(StartTrigger) == ["#merge_start"];
    MergeModeCollects(cfg, first.0, "u", tail);
    assert Contents([e3]) == ["#merge_end"] && Contents([e2, e3]) == ["y", "#merge_end"];
    assert Contents(tail) == ["x", "y", "#merge_end"];
    var rest := Run(cfg, first.0, tail);
    assert Run(cfg, InitialState, evs) == (rest.0, [Suppress] + rest.1);
  }

  /** Instant trigger "#go": on a session that never buffered it is dropped;
      after "a" it emits "a" and itself; once the buffer has been flushed it
      emits itself alone. */
  lemma InstantTriggerExample()
    ensures var cfg := Config(None, None, Some(["#go"]), None, None);
      var evs := [Event(Text, "u", "#go", 0), Event(Text, "u", "a", 1),
                  Event(Text, "u", "#go", 2), Event(Text, "u", "#go", 3)];
      Run(cfg, InitialState, evs).1 == [Suppress, Suppress, Emit("a\n#go"), Emit("#go")]
  {
    var cfg := Config(None, None, Some(["#go"]), None, None);
    var e0, e1, e2, e3 := Event(Text, "u", "#go", 0), Event(Text, "u", "a", 1),
                          Event(Text, "u", "#go", 2), Event(Text, "u", "#go", 3);
    assert Occurs("#go", "#go") && !Occurs("#go", "a");
    assert cfg.Triggers(InstantTrigger) == ["#go"];
    var s1 := Step(cfg, InitialState, e0);
    assert s1 == (InitialState, Suppress);
    var s2 := Step(cfg, s1.0, e1);
    assert s2.0.messages["u"] == ["a"] && s2.0.merging == {} && s2.1 == Suppress;
    var s3 := Step(cfg, s2.0, e2);
    assert s3.0.messages["u"] == [] && s3.0.merging == {} && s3.1 == Emit(Join(["a"] + ["#go"]));
    assert ["a"] + ["#go"] == ["a", "#go"] && ["a", "#go"][1..] == ["#go"];
    var s4 := Step(cfg, s3.0, e3);
    assert s4.1 == Emit(Join([] + ["#go"]));
    assert [] + ["#go"] == ["#go"];
    assert Join(["a", "#go"]) == "a\n#go" && Join(["#go"]) == "#go";
    RunOfFour(cfg, InitialState, e0, e1, e2, e3);
  }
}
