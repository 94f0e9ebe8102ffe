/** What each frame writes, told by the frames of its message or tool call so
    far. */
module MessageLaws {
  import opened Wrappers
  import opened Text
  import opened Timeline
  import opened TimelineProjector
  import opened ProjectionLaws

  /** The role a start gives: its own, or that of its kind. */
  predicate Starts(f: Frame, role: string) {
    && f.Live() && f.event.Start?
    && (TrimSpace(f.event.role) != "" ==> role == TrimSpace(f.event.role))
    && (TrimSpace(f.event.role) == "" && f.event.thinking ==> role == "thinking")
    && (TrimSpace(f.event.role) == "" && !f.event.thinking ==> role == "assistant")
  }

  predicate Writes(written: Option<Entity>, id: string, role: string, content: string, streaming: bool) {
    written == Some(Entity(TrimSpace(id), "message", 0, 0, Message(role, content, streaming)))
  }

  /** The message was started in a role and carries these increments since. */
  ghost predicate Carried(c: Caches, id: string, role: string, incs: seq<string>) {
    At(c.contents, id) == Concat(incs) && At(c.roles, id) == role != ""
  }

  /** A start writes an empty streaming message in its role. */
  lemma StartWrites(c: Caches, f: Frame, now: int, window: int, role: string)
    requires Starts(f, role)
    ensures var (next, written) := Project(c, f, now, window);
      Writes(written, f.id, role, "", true) && Carried(next, f.id, role, [])
  {
    TrimIdempotent(f.event.role);
  }

  lemma CarriesOn(c: Caches, ticks: seq<Tick>, id: string, role: string, incs: seq<string>, window: int)
    requires Carried(c, id, role, []) && Encodes(ticks, id, "", incs)
    ensures Carried(CachesAfter(c, ticks, window), id, role, incs)
  {
    ContentsAccumulate(c, ticks, id, incs, window);
    assert "" + Concat(incs) == Concat(incs);
  }

  /** The text a closing frame brings itself, if any. */
  function OwnText(e: Event): string
    requires e.Closes()
  {
    if e.ThinkingFinal? then "" else e.text
  }

  lemma CloseOf(c: Caches, f: Frame, now: int, window: int, role: string, incs: seq<string>)
    requires f.Live() && f.event.Closes() && Carried(c, f.id, role, incs)
    ensures var (next, written) := Project(c, f, now, window);
      var text := if TrimSpace(OwnText(f.event)) != "" then OwnText(f.event) else Concat(incs);
      && Writes(written, f.id, role, text, false)
      && At(next.contents, f.id) == text && At(next.roles, f.id) == role && f.id !in next.lastWrite
  {
    assert TrimSpace("") == "";
  }

  /** However the increments of a message are carried, and whatever is
      throttled, any frame that closes it writes the frame's own text where that
      is not blank and otherwise the concatenation of the increments, no longer
      streaming, in the role of its start. */
  lemma ClosingWrites(c: Caches, start: Tick, ticks: seq<Tick>, close: Tick, role: string, incs: seq<string>, window: int)
    requires Starts(start.frame, role) && Encodes(ticks, start.frame.id, "", incs)
    requires close.frame.Live() && close.frame.id == start.frame.id && close.frame.event.Closes()
    ensures var before := CachesAfter(Project(c, start.frame, start.now, window).0, ticks, window);
      var text := OwnText(close.frame.event);
      Writes(Project(before, close.frame, close.now, window).1, start.frame.id, role,
             if TrimSpace(text) != "" then text else Concat(incs), false)
  {
    var begun := Project(c, start.frame, start.now, window).0;
    StartWrites(c, start.frame, start.now, window, role);
    CarriesOn(begun, ticks, start.frame.id, role, incs, window);
    CloseOf(CachesAfter(begun, ticks, window), close.frame, close.now, window, role, incs);
  }

  /** Closing twice, the second time without text, writes the same again. */
  lemma ClosedTwice(c: Caches, first: Frame, second: Frame, now: int, later: int, window: int,
                    role: string, incs: seq<string>)
    requires first.Live() && second.Live() && first.id == second.id && Carried(c, first.id, role, incs)
    requires first.event.Closes() && second.event.Closes() && TrimSpace(OwnText(second.event)) == ""
    ensures Project(Project(c, first, now, window).0, second, later, window).1 == Project(c, first, now, window).1
  {
    CloseOf(c, first, now, window, role, incs);
    var text := if TrimSpace(OwnText(first.event)) != "" then OwnText(first.event) else Concat(incs);
    assert Concat([text]) == text by {
      assert [text][1..] == [];
      assert text + "" == text;
    }
    CloseOf(Project(c, first, now, window).0, second, later, window, role, [text]);
  }

  /** When the throttle last let a delta of this message through. */
  function LastWrite(c: Caches, id: string): int {
    if id in c.lastWrite then c.lastWrite[id] else 0
  }

  lemma DeltaShows(c: Caches, f: Frame, now: int, window: int, role: string, incs: seq<string>, inc: string)
    requires f.Live() && Carried(c, f.id, role, incs) && Carries(f.event, Concat(incs), inc)
    ensures var (next, written) := Project(c, f, now, window);
      && At(next.contents, f.id) == Concat(incs) + inc
      && (written.Some? <==> Concat(incs) + inc != "" && now - LastWrite(c, f.id) >= window)
      && (written.Some? ==> Writes(written, f.id, role, Concat(incs) + inc, true) && LastWrite(next, f.id) == now)
      && (written.None? ==> LastWrite(next, f.id) == LastWrite(c, f.id))
  {
    DeltaGrows(c, f, now, window, inc);
    assert Concat(incs) + inc == "" ==> Concat(incs) == "" && inc == "";
  }

  /** What the throttle remembers is the last delta write, as long as the message
      is not closed. */
  lemma {:induction false} LastWriteIs(c: Caches, ticks: seq<Tick>, id: string, window: int)
    requires forall i | 0 <= i < |ticks| && ticks[i].frame.id == id :: !ticks[i].frame.event.Closes()
    ensures var times := DeltaWrites(c, ticks, id, window);
      LastWrite(CachesAfter(c, ticks, window), id)
      == if times == [] then LastWrite(c, id) else times[|times| - 1]
    decreases |ticks|
  {
    if ticks != [] {
      WriteClock(c, ticks[0].frame, ticks[0].now, window, id);
      NoClock(c, ticks[0].frame, ticks[0].now, window, id);
      LastWriteIs(Project(c, ticks[0].frame, ticks[0].now, window).0, ticks[1..], id, window);
    }
  }

  lemma NoClock(c: Caches, f: Frame, now: int, window: int, id: string)
    ensures id in Project(c, f, now, window).0.lastWrite ==>
              id in c.lastWrite || (f.event.Delta? && f.id == id && Project(c, f, now, window).1.Some?)
  {
  }

  lemma {:induction false} EncodesOpen(ticks: seq<Tick>, id: string, sofar: string, incs: seq<string>)
    requires Encodes(ticks, id, sofar, incs)
    ensures forall i | 0 <= i < |ticks| && ticks[i].frame.id == id :: !ticks[i].frame.event.Closes()
    decreases |ticks|
  {
    if ticks != [] {
      if ticks[0].frame.id == id {
        EncodesOpen(ticks[1..], id, sofar + incs[0], incs[1..]);
      } else {
        EncodesOpen(ticks[1..], id, sofar, incs);
      }
      assert forall i | 0 < i < |ticks| :: ticks[i] == ticks[1..][i - 1];
    }
  }

  /** A delta of a started message is written exactly when there is text and the
      window has passed since the last delta that was; it shows the
      concatenation of all increments so far in the role of the start. */
  lemma DeltaWritesExactly(c: Caches, start: Tick, ticks: seq<Tick>, delta: Tick,
                           role: string, incs: seq<string>, inc: string, window: int)
    requires Starts(start.frame, role) && Encodes(ticks, start.frame.id, "", incs)
    requires delta.frame.Live() && delta.frame.id == start.frame.id && Carries(delta.frame.event, Concat(incs), inc)
    ensures var begun := Project(c, start.frame, start.now, window).0;
      var times := DeltaWrites(begun, ticks, start.frame.id, window);
      var last := if times == [] then LastWrite(c, start.frame.id) else times[|times| - 1];
      var written := Project(CachesAfter(begun, ticks, window), delta.frame, delta.now, window).1;
      && (written.Some? <==> Concat(incs) + inc != "" && delta.now - last >= window)
      && (written.Some? ==> Writes(written, start.frame.id, role, Concat(incs) + inc, true))
  {
    var begun := Project(c, start.frame, start.now, window).0;
    StartWrites(c, start.frame, start.now, window, role);
    CarriesOn(begun, ticks, start.frame.id, role, incs, window);
    EncodesOpen(ticks, start.frame.id, "", incs);
    LastWriteIs(begun, ticks, start.frame.id, window);
    DeltaShows(CachesAfter(begun, ticks, window), delta.frame, delta.now, window, role, incs, inc);
  }

  // ----- Messages that were never started -----

  ghost predicate NeverStarted(ticks: seq<Tick>, id: string) {
    forall i | 0 <= i < |ticks| && ticks[i].frame.id == id :: !(ticks[i].frame.Live() && ticks[i].frame.event.Start?)
  }

  lemma OnlyStartGivesRole(c: Caches, f: Frame, now: int, window: int, id: string)
    requires f.id == id ==> !(f.Live() && f.event.Start?)
    ensures At(Project(c, f, now, window).0.roles, id) == At(c.roles, id)
  {
  }

  lemma {:induction false} NoRole(c: Caches, ticks: seq<Tick>, id: string, window: int)
    requires NeverStarted(ticks, id)
    ensures At(CachesAfter(c, ticks, window).roles, id) == At(c.roles, id)
    decreases |ticks|
  {
    if ticks != [] {
      OnlyStartGivesRole(c, ticks[0].frame, ticks[0].now, window, id);
      NoRole(Project(c, ticks[0].frame, ticks[0].now, window).0, ticks[1..], id, window);
    }
  }

  /** A message that was never started is the assistant's, until a thinking
      frame closes it. */
  lemma UnstartedRole(ticks: seq<Tick>, t: Tick, window: int)
    requires NeverStarted(ticks, t.frame.id) && t.frame.Live() && t.frame.event.OfMessage() && !t.frame.event.Start?
    ensures var written := Project(CachesAfter(NO_CACHES, ticks, window), t.frame, t.now, window).1;
      written.Some? ==>
        && written.value.props.Message?
        && written.value.props.role ==
             (if t.frame.event.ThinkingFinal? || t.frame.event.ThinkingSummary? then "thinking" else "assistant")
  {
    NoRole(NO_CACHES, ticks, t.frame.id, window);
  }

  // ----- Tools -----

  /** The entity of a tool call and of its two kinds of result. */
  predicate Named(written: Option<Entity>, id: string, kind: string, props: Props) {
    written == Some(Entity(TrimSpace(id), kind, 0, 0, props))
  }

  /** A started tool call runs, with no progress; a result goes to an entity of
      its own with its text, and as a structure where the text begins like one
      and decodes. */
  lemma ToolFramesWrite(c: Caches, f: Frame, now: int, window: int)
    requires f.Live()
    ensures var written := Project(c, f, now, window).1;
      && (f.event.ToolStart? ==>
            Named(written, f.id, "tool_call", ToolCall(f.event.name, f.event.input, "running", 0, false)))
      && (f.event.ToolResulted? ==>
            exists data: ResultData ::
              && Named(written, f.id + (if TrimSpace(f.event.customKind) == "" then ":result" else ":custom"),
                       "tool_result", ToolResult(f.id, data, f.event.result, f.event.customKind))
              && (if f.event.decoded.Some? && "{" <= TrimSpace(f.event.result)
                  then data == Decoded(f.event.decoded.value) else data == Raw(f.event.result)))
  {
    if f.event.ToolResulted? {
      var data := DataOf(f.event.result, f.event.decoded);
      assert "{" <= TrimSpace(f.event.result) <==> TrimSpace(f.event.result) != "" && TrimSpace(f.event.result)[0] == '{';
      assert Named(Project(c, f, now, window).1,
                   f.id + (if TrimSpace(f.event.customKind) == "" then ":result" else ":custom"),
                   "tool_result", ToolResult(f.id, data, f.event.result, f.event.customKind));
    }
  }

  lemma {:induction false} TrimKeepsTail(s: string, tail: string)
    requires TrimSpace(s) != "" && tail != "" && !IsSpace(tail[|tail| - 1])
    ensures TrimSpace(s + tail) == TrimLeft(s) + tail
  {
    if IsSpace(s[0]) {
      assert (s + tail)[1..] == s[1..] + tail;
      TrimKeepsTail(s[1..], tail);
    } else {
      assert TrimLeft(s + tail) == s + tail && TrimLeft(s) == s;
    }
  }

  /** A call, its result and its custom result are three entities. */
  lemma ToolTargetsApart(id: string)
    requires TrimSpace(id) != ""
    ensures TrimSpace(id) != TrimSpace(id + ":result") && TrimSpace(id) != TrimSpace(id + ":custom")
    ensures TrimSpace(id + ":result") != TrimSpace(id + ":custom")
  {
    TrimKeepsTail(id, ":result");
    TrimKeepsTail(id, ":custom");
    TrimRightEdge(TrimLeft(id));
    var l := TrimLeft(id);
    assert (l + ":result")[|l| + 1] == 'r' && (l + ":custom")[|l| + 1] == 'c';
  }

  /** Frames that are not semantic, have a blank id or no number, and frames
      of other types, change and write nothing. */
  lemma OthersDoNothing(c: Caches, f: Frame, now: int, window: int)
    requires !f.sem || TrimSpace(f.id) == "" || f.seqNo == 0 || f.event.Unhandled?
    ensures Project(c, f, now, window) == (c, None)
  {
  }
}
