/**
 * The per-session merge state machine of the MessageMerger plugin.
 *
 * For every text event of a session the plugin either suppresses the message
 * (the host drops it) or emits a merged text that replaces the message's
 * content. `MergeEngine` keeps the three tables the plugin mutates in place;
 * `Step` is the specification of one call of `Handle`, and the lemmas below it
 * state what the plugin promises about a call and about a run of calls.
 */
module MessageMerger {
  import opened Strings

  datatype Option<T> = None | Some(value: T)
  {
    function GetOr(default: T): (r: T)
      ensures Some? ==> r == value
      ensures None? ==> r == default
    {
      match this
      case Some(v) => v
      case None => default
    }
  }

  const DefaultMergeInterval: int := 60
  const DefaultMessageCount: int := 6

  datatype TriggerKind = StartTrigger | EndTrigger | InstantTrigger

  /** The plugin's configuration document: every key may be missing, and a
      missing key reads as its default (`dict.get(key, default)`). */
  datatype Config = Config(
    startTriggers: Option<seq<string>>,
    endTriggers: Option<seq<string>>,
    instantTriggers: Option<seq<string>>,
    mergeInterval: Option<int>,
    messageCount: Option<int>)
  {
    function Triggers(kind: TriggerKind): (ts: seq<string>)
    {
      match kind
      case StartTrigger => startTriggers.GetOr([])
      case EndTrigger => endTriggers.GetOr([])
      case InstantTrigger => instantTriggers.GetOr([])
    }

    function MergeInterval(): (interval: int)
    {
      mergeInterval.GetOr(DefaultMergeInterval)
    }

    function MessageCount(): (count: int)
    {
      messageCount.GetOr(DefaultMessageCount)
    }
  }

  /** The configuration used when the document is absent or malformed. */
  const EmptyConfig := Config(None, None, None, None, None)

  datatype ContextType = Text | NonText

  /** One event handed to the plugin: its type, session, content, and the
      clock reading at the time of the call. */
  datatype Event = Event(ctype: ContextType, sessionId: string, content: string, now: int)

  /** What the host does with the event: `Ignore` leaves a non-text event to
      the rest of the pipeline, `Suppress` drops it (break-pass), `Emit`
      replaces its content with `merged` and continues. */
  datatype Decision = Ignore | Suppress | Emit(merged: string)

  /** A value view of the plugin's three tables. */
  datatype State = State(
    messages: map<string, seq<string>>,
    lastTime: map<string, int>,
    merging: set<string>)

  const InitialState := State(map[], map[], {})

  /** Every merging session has a buffer: `start_merging` creates it, and
      `add_message` and `end_merging` look it up. */
  ghost predicate Consistent(s: State)
  {
    s.merging <= s.messages.Keys
  }

  /** `is_trigger`: some configured trigger of the kind occurs in `content`. */
  function IsTrigger(cfg: Config, content: string, kind: TriggerKind): (r: bool)
    ensures r <==> exists t :: t in cfg.Triggers(kind) && Occurs(t, content)
  {
    AnyOccurs(cfg.Triggers(kind), content)
  }

  /** `last_message_time.get(session_id, 0)`. */
  function LastTime(lastTime: map<string, int>, sid: string): (t: int)
  {
    if sid in lastTime then lastTime[sid] else 0
  }

  /** The buffer a normal message is appended to: a session without a buffer,
      or whose last message is more than the merge interval old, starts over. */
  function BaseBuffer(cfg: Config, s: State, sid: string, now: int): (buf: seq<string>)
  {
    if sid !in s.messages || now - LastTime(s.lastTime, sid) > cfg.MergeInterval() then []
    else s.messages[sid]
  }

  /** `handle_normal_message` on values. */
  ghost function NormalStep(cfg: Config, s: State, sid: string, content: string, now: int): (r: (State, Decision))
  {
    var buf := BaseBuffer(cfg, s, sid, now) + [content];
    var times := s.lastTime[sid := now];
    if |buf| >= cfg.MessageCount() then
      (State(s.messages[sid := []], times, s.merging), Emit(Join(buf)))
    else
      (State(s.messages[sid := buf], times, s.merging), Suppress)
  }

  /** One call of `on_handle_context`, as a function of the tables before it.
      The branches are tried in the order of the source; the end-trigger
      branch re-tests membership in `merging`, which the previous branch has
      already ruled out. */
  ghost function Step(cfg: Config, s: State, e: Event): (r: (State, Decision))
    requires Consistent(s)
    ensures Consistent(r.0)
  {
    var sid, c := e.sessionId, e.content;
    if e.ctype != Text then (s, Ignore)
    else if IsTrigger(cfg, c, StartTrigger) then
      (State(s.messages[sid := []], s.lastTime, s.merging + {sid}), Suppress)
    else if sid in s.merging then
      (s.(messages := s.messages[sid := s.messages[sid] + [c]]), Suppress)
    else if IsTrigger(cfg, c, EndTrigger) then
      (s, Suppress)
    else if IsTrigger(cfg, c, InstantTrigger) then
      if sid in s.messages then
        (s.(messages := s.messages[sid := []]), Emit(Join(s.messages[sid] + [c])))
      else
        (s, Suppress)
    else
      NormalStep(cfg, s, sid, c, e.now)
  }

  class MergeEngine {
    const config: Config
    var messages: map<string, seq<string>>
    var lastTime: map<string, int>
    var merging: set<string>

    function Snapshot(): (s: State)
      reads this
    {
      State(messages, lastTime, merging)
    }

    ghost predicate Valid()
      reads this
    {
      Consistent(Snapshot())
    }

    constructor (cfg: Config)
      ensures Valid() && config == cfg && Snapshot() == InitialState
    {
      config := cfg;
      messages := map[];
      lastTime := map[];
      merging := {};
    }

    /** `on_handle_context`. */
    method Handle(e: Event) returns (d: Decision)
      requires Valid()
      modifies this
      ensures Valid()
      ensures (Snapshot(), d) == Step(config, old(Snapshot()), e)
    {
      if e.ctype != Text {
        return Ignore;
      }
      var content, sid := e.content, e.sessionId;
      if IsTrigger(config, content, StartTrigger) {
        StartMerging(sid);
        return Suppress;
      }
      if sid in merging {
        AddMessage(sid, content);
        return Suppress;
      }
      if IsTrigger(config, content, EndTrigger) {
        if sid in merging {
          // `end_merging` would run here; the branch above has returned for
          // every merging session.
          assert false;
        }
        return Suppress;
      }
      if IsTrigger(config, content, InstantTrigger) {
        if sid in messages {
          var merged := InstantMerge(sid, content);
          return Emit(merged);
        }
        return Suppress;
      }
      d := HandleNormalMessage(sid, content, e.now);
    }

    /** `start_merging`: the session merges from now on, with an empty buffer. */
    method StartMerging(sid: string)
      modifies this
      ensures merging == old(merging) + {sid}
      ensures messages == old(messages)[sid := []]
      ensures lastTime == old(lastTime)
    {
      merging := merging + {sid};
      messages := messages[sid := []];
    }

    /** `add_message`: append to the session's existing buffer. */
    method AddMessage(sid: string, content: string)
      requires sid in messages
      modifies this
      ensures messages == old(messages)[sid := old(messages[sid]) + [content]]
      ensures lastTime == old(lastTime) && merging == old(merging)
    {
      messages := messages[sid := messages[sid] + [content]];
    }

    /** `end_merging`: leave merge mode and hand back the joined buffer.
        `Handle` only calls it when the session is merging, which the branch
        before has already excluded, so it is never reached. */
    method EndMerging(sid: string) returns (merged: string)
      requires sid in merging && sid in messages
      modifies this
      ensures merged == Join(old(messages[sid]))
      ensures merging == old(merging) - {sid}
      ensures messages == old(messages)[sid := []]
      ensures lastTime == old(lastTime)
    {
      merging := merging - {sid};
      merged := Join(messages[sid]);
      messages := messages[sid := []];
    }

    /** `instant_merge`: the buffer followed by the trigger message, joined,
        and the buffer emptied. */
    method InstantMerge(sid: string, content: string) returns (merged: string)
      requires sid in messages
      modifies this
      ensures merged == Join(old(messages[sid]) + [content])
      ensures messages == old(messages)[sid := []]
      ensures lastTime == old(lastTime) && merging == old(merging)
    {
      merged := Join(messages[sid] + [content]);
      messages := messages[sid := []];
    }

    /** `handle_normal_message`. */
    method HandleNormalMessage(sid: string, content: string, now: int) returns (d: Decision)
      modifies this
      ensures (Snapshot(), d) == NormalStep(config, old(Snapshot()), sid, content, now)
    {
      ghost var s0 := Snapshot();
      ghost var buf := BaseBuffer(config, s0, sid, now) + [content];
      if sid !in messages || now - LastTime(lastTime, sid) > config.MergeInterval() {
        messages := messages[sid := []];
      }
      messages := messages[sid := messages[sid] + [content]];
      lastTime := lastTime[sid := now];
      assert messages == s0.messages[sid := buf];
      if |messages[sid]| >= config.MessageCount() {
        var merged := Join(messages[sid]);
        messages := messages[sid := []];
        d := Emit(merged);
        assert Snapshot() == NormalStep(config, s0, sid, content, now).0;
        assert d == NormalStep(config, s0, sid, content, now).1;
      } else {
        d := Suppress;
        assert Snapshot() == NormalStep(config, s0, sid, content, now).0;
      }
    }
  }
}
