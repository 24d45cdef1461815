/**
 * The block-editor adapter: the markdown-only schema, the debounced
 * `handleChange`, `handleExternalContent`, the one-shot initial load and the
 * timer cleanup on unmount.
 *
 * Markdown-to-blocks parsing and blocks-to-markdown serialisation belong to
 * the block-editor library; the adapter is given them as functions, and
 * parsing may fail. Time is an explicit clock in milliseconds: a change
 * scheduled at `now` is due at `now + DebounceMs`, and a `Tick(now)` fires it
 * once `now` has reached that deadline.
 */
module BlockNoteEditor {
  import opened Wrappers

  // ---------------------------------------------------------------------
  // The markdown-compatible schema

  /** The block types the source names: the eight it keeps and the four it omits. */
  datatype BlockType =
    | Paragraph | Heading | BulletListItem | NumberedListItem | CheckListItem | CodeBlock | Table | Quote
    | Image | Audio | Video | File

  /** The text styles the source names: the four it keeps and the three it omits. */
  datatype StyleType = Bold | Italic | Strike | Code | Underline | TextColor | BackgroundColor

  datatype InlineContentType = Text | Link

  const MarkdownBlockTypes: set<BlockType> :=
    {Paragraph, Heading, BulletListItem, NumberedListItem, CheckListItem, CodeBlock, Table, Quote}
  const MarkdownStyles: set<StyleType> := {Bold, Italic, Strike, Code}
  const MarkdownInlineContent: set<InlineContentType> := {Text, Link}

  /** The schema admits exactly 8 block types, 4 styles and 2 inline-content types, and none of the omitted ones. */
  lemma MarkdownSchemaSize()
    ensures |MarkdownBlockTypes| == 8 && |MarkdownStyles| == 4 && |MarkdownInlineContent| == 2
    ensures Image !in MarkdownBlockTypes && Audio !in MarkdownBlockTypes
    ensures Video !in MarkdownBlockTypes && File !in MarkdownBlockTypes
    ensures Underline !in MarkdownStyles && TextColor !in MarkdownStyles && BackgroundColor !in MarkdownStyles
  {
  }

  /** A block of the editor's document; its inner structure belongs to the library. */
  datatype Block = Block(kind: BlockType, text: string)

  type Document = seq<Block>

  // ---------------------------------------------------------------------
  // The debounce timer

  const DebounceMs: int := 300

  /** `saveTimeoutRef`: no timer, or one timer with its deadline and the markdown it will emit. A single slot: at most one timer is ever pending. */
  datatype Timer = Idle | Pending(deadline: int, markdown: string)

  /** What the timer sees: an unguarded change at a time with its markdown, or the clock reaching a time. */
  datatype Event = Change(at: int, markdown: string) | Tick(at: int)

  /** The timer state together with the markdown emitted, oldest first. */
  datatype Outcome = Outcome(timer: Timer, emitted: seq<string>)

  /** One event: a change replaces any pending timer by one due `DebounceMs` later; a tick fires a due timer, emitting its markdown. */
  function Step(t: Timer, e: Event): (r: Outcome)
    ensures e.Change? ==> r == Outcome(Pending(e.at + DebounceMs, e.markdown), [])
    ensures e.Tick? && t.Pending? && e.at >= t.deadline ==> r == Outcome(Idle, [t.markdown])
    ensures e.Tick? && !(t.Pending? && e.at >= t.deadline) ==> r == Outcome(t, [])
  {
    match e
    case Change(at, markdown) => Outcome(Pending(at + DebounceMs, markdown), [])
    case Tick(now) =>
      if t.Pending? && now >= t.deadline then Outcome(Idle, [t.markdown]) else Outcome(t, [])
  }

  /** The timer after a run of events, and the markdown emitted along the way. */
  function Run(t: Timer, es: seq<Event>): Outcome
    decreases |es|
  {
    if es == [] then Outcome(t, [])
    else
      var before := Run(t, es[..|es| - 1]);
      var last := Step(before.timer, es[|es| - 1]);
      Outcome(last.timer, before.emitted + last.emitted)
  }

  /** The most recent change in a run. */
  function LastChange(es: seq<Event>): (r: Option<Event>)
    ensures r.Some? ==> r.value.Change?
    decreases |es|
  {
    if es == [] then None
    else if es[|es| - 1].Change? then Some(es[|es| - 1])
    else LastChange(es[..|es| - 1])
  }

  /** Every event comes before the deadline set by the latest change preceding it: the debounce window never runs out. */
  ghost predicate WithinWindow(es: seq<Event>)
  {
    forall j :: 0 <= j < |es| && LastChange(es[..j]).Some? ==> es[j].at < LastChange(es[..j]).value.at + DebounceMs
  }

  /** Clock readings never go backwards. */
  ghost predicate Monotone(es: seq<Event>)
  {
    forall i, j :: 0 <= i < j < |es| ==> es[i].at <= es[j].at
  }

  /** Each change comes less than `DebounceMs` after the change before it. */
  ghost predicate ChangesClose(es: seq<Event>)
  {
    forall j :: 0 <= j < |es| && es[j].Change? && LastChange(es[..j]).Some? ==> es[j].at < LastChange(es[..j]).value.at + DebounceMs
  }

  lemma {:induction false} RunSnoc(t: Timer, es: seq<Event>, e: Event)
    ensures Run(t, es + [e])
      == Outcome(Step(Run(t, es).timer, e).timer, Run(t, es).emitted + Step(Run(t, es).timer, e).emitted)
  {
    assert (es + [e])[..|es + [e]| - 1] == es;
  }

  lemma {:induction false} LastChangeSnoc(es: seq<Event>, e: Event)
    ensures LastChange(es + [e]) == if e.Change? then Some(e) else LastChange(es)
  {
    assert (es + [e])[..|es + [e]| - 1] == es;
  }

  lemma WithinWindowPrefix(es: seq<Event>, n: nat)
    requires WithinWindow(es) && n <= |es|
    ensures WithinWindow(es[..n])
  {
    forall j | 0 <= j < n && LastChange(es[..n][..j]).Some?
      ensures es[..n][j].at < LastChange(es[..n][..j]).value.at + DebounceMs
    {
      assert es[..n][..j] == es[..j];
    }
  }

  /**
   * In a burst whose debounce window never runs out, nothing is emitted;
   * the single pending timer carries the markdown of the latest change, due
   * `DebounceMs` after it.
   */
  lemma {:induction false} BurstKeepsOnePending(es: seq<Event>)
    requires WithinWindow(es)
    ensures Run(Idle, es).emitted == []
    ensures LastChange(es).None? ==> Run(Idle, es).timer == Idle
    ensures LastChange(es).Some? ==>
      Run(Idle, es).timer == Pending(LastChange(es).value.at + DebounceMs, LastChange(es).value.markdown)
    decreases |es|
  {
    if es != [] {
      var n := |es| - 1;
      var p, e := es[..n], es[n];
      assert es == p + [e];
      WithinWindowPrefix(es, n);
      BurstKeepsOnePending(p);
      RunSnoc(Idle, p, e);
      LastChangeSnoc(p, e);
      if e.Tick? && LastChange(p).Some? {
        assert e.at < LastChange(p).value.at + DebounceMs;
      }
    }
  }

  /** Some tick reaches the deadline. */
  ghost predicate Reaches(ticks: seq<Event>, deadline: int)
  {
    exists k :: 0 <= k < |ticks| && ticks[k].at >= deadline
  }

  /** Once changes stop, ticks alone emit the pending markdown exactly once, and only when a tick reaches the deadline. */
  lemma {:induction false} TicksFireOnce(deadline: int, markdown: string, ticks: seq<Event>)
    requires forall k :: 0 <= k < |ticks| ==> ticks[k].Tick?
    ensures Reaches(ticks, deadline) ==> Run(Pending(deadline, markdown), ticks) == Outcome(Idle, [markdown])
    ensures !Reaches(ticks, deadline) ==> Run(Pending(deadline, markdown), ticks) == Outcome(Pending(deadline, markdown), [])
    decreases |ticks|
  {
    if ticks != [] {
      var n := |ticks| - 1;
      var p, e := ticks[..n], ticks[n];
      assert ticks == p + [e];
      TicksFireOnce(deadline, markdown, p);
      RunSnoc(Pending(deadline, markdown), p, e);
      assert Reaches(ticks, deadline) <==> Reaches(p, deadline) || e.at >= deadline by {
        if Reaches(p, deadline) {
          var k :| 0 <= k < |p| && p[k].at >= deadline;
          assert ticks[k] == p[k];
        }
        if Reaches(ticks, deadline) && !(e.at >= deadline) {
          var k :| 0 <= k < |ticks| && ticks[k].at >= deadline;
          assert k < n && p[k] == ticks[k];
        }
      }
      if Reaches(p, deadline) {
        assert [markdown] + [] == [markdown];
      } else if e.at >= deadline {
        assert [] + [markdown] == [markdown];
      }
    }
  }

  /** Running two stretches of events one after the other is running their concatenation. */
  lemma {:induction false} RunAppend(t: Timer, a: seq<Event>, b: seq<Event>)
    ensures Run(t, a + b) == Outcome(Run(Run(t, a).timer, b).timer, Run(t, a).emitted + Run(Run(t, a).timer, b).emitted)
    decreases |b|
  {
    if b == [] {
      assert a + b == a;
      assert Run(t, a).emitted + [] == Run(t, a).emitted;
    } else {
      var n := |b| - 1;
      var p, e := b[..n], b[n];
      assert b == p + [e];
      assert a + b == (a + p) + [e];
      RunAppend(t, a, p);
      RunSnoc(t, a + p, e);
      RunSnoc(Run(t, a).timer, p, e);
      var mid := Run(t, a);
      var rest := Run(mid.timer, p);
      var last := Step(rest.timer, e);
      assert mid.emitted + rest.emitted + last.emitted == mid.emitted + (rest.emitted + last.emitted);
    }
  }

  /**
   * Debounce collapse: a burst of changes whose window never runs out,
   * followed by a quiet stretch in which the clock reaches the last change's
   * deadline, emits exactly one markdown string, the one captured at the last
   * change.
   */
  lemma BurstEmitsLastMarkdownOnce(burst: seq<Event>, quiet: seq<Event>)
    requires WithinWindow(burst) && LastChange(burst).Some?
    requires forall k :: 0 <= k < |quiet| ==> quiet[k].Tick?
    requires Reaches(quiet, LastChange(burst).value.at + DebounceMs)
    ensures Run(Idle, burst + quiet) == Outcome(Idle, [LastChange(burst).value.markdown])
  {
    var c := LastChange(burst).value;
    BurstKeepsOnePending(burst);
    var mid := Run(Idle, burst);
    assert mid == Outcome(Pending(c.at + DebounceMs, c.markdown), []);
    TicksFireOnce(c.at + DebounceMs, c.markdown, quiet);
    var fin := Run(mid.timer, quiet);
    assert fin == Outcome(Idle, [c.markdown]);
    RunAppend(Idle, burst, quiet);
    assert mid.emitted + fin.emitted == [c.markdown];
  }

  /** Ticks do not move the latest change. */
  lemma {:induction false} LastChangeSkipsTicks(es: seq<Event>, j: nat, k: nat)
    requires j <= k <= |es|
    requires forall i :: j <= i < k ==> es[i].Tick?
    ensures LastChange(es[..k]) == LastChange(es[..j])
    decreases k - j
  {
    if j < k {
      assert es[..k] == es[..k - 1] + [es[k - 1]];
      LastChangeSnoc(es[..k - 1], es[k - 1]);
      LastChangeSkipsTicks(es, j, k - 1);
    }
  }

  /** The first change at or after index `j`, in a run that ends with a change. */
  ghost function FirstChangeFrom(es: seq<Event>, j: nat): (k: nat)
    requires j < |es| && es[|es| - 1].Change?
    ensures j <= k < |es| && es[k].Change?
    ensures forall i :: j <= i < k ==> es[i].Tick?
    decreases |es| - j
  {
    if es[j].Change? then j else FirstChangeFrom(es, j + 1)
  }

  /**
   * With a clock that never goes backwards, "each change less than
   * `DebounceMs` after the previous one, the burst ending with a change" is
   * enough: a tick in between comes no later than the next change, which is
   * still inside the window of the change before it.
   */
  lemma CloseChangesStayWithinWindow(es: seq<Event>)
    requires Monotone(es) && ChangesClose(es)
    requires es != [] && es[|es| - 1].Change?
    ensures WithinWindow(es)
  {
    forall j | 0 <= j < |es| && LastChange(es[..j]).Some?
      ensures es[j].at < LastChange(es[..j]).value.at + DebounceMs
    {
      if es[j].Tick? {
        var k := FirstChangeFrom(es, j);
        LastChangeSkipsTicks(es, j, k);
        assert es[j].at <= es[k].at;
      }
    }
  }

  /**
   * The property as the source's timing promises it: changes each less than
   * `DebounceMs` after the previous one, on a clock that never goes
   * backwards, then a quiet stretch reaching the last deadline, give exactly
   * one emission, carrying the markdown captured at the last change.
   */
  lemma BurstOfCloseChangesEmitsOnce(burst: seq<Event>, quiet: seq<Event>)
    requires Monotone(burst) && ChangesClose(burst)
    requires burst != [] && burst[|burst| - 1].Change?
    requires forall k :: 0 <= k < |quiet| ==> quiet[k].Tick?
    requires Reaches(quiet, burst[|burst| - 1].at + DebounceMs)
    ensures Run(Idle, burst + quiet) == Outcome(Idle, [burst[|burst| - 1].markdown])
  {
    CloseChangesStayWithinWindow(burst);
    LastChangeSnoc(burst[..|burst| - 1], burst[|burst| - 1]);
    assert burst == burst[..|burst| - 1] + [burst[|burst| - 1]];
    BurstEmitsLastMarkdownOnce(burst, quiet);
  }

  /** With no timer pending, ticks emit nothing: after the unmount cleanup no `onContentChange` fires. */
  lemma {:induction false} IdleTicksEmitNothing(ticks: seq<Event>)
    requires forall k :: 0 <= k < |ticks| ==> ticks[k].Tick?
    ensures Run(Idle, ticks) == Outcome(Idle, [])
    decreases |ticks|
  {
    if ticks != [] {
      var n := |ticks| - 1;
      assert ticks == ticks[..n] + [ticks[n]];
      IdleTicksEmitNothing(ticks[..n]);
      RunSnoc(Idle, ticks[..n], ticks[n]);
    }
  }

  // ---------------------------------------------------------------------
  // The component

  /** The component's refs, the editor document and the parent's `onContentChange` callback as a list of calls. */
  class Adapter {
    /** `tryParseMarkdownToBlocks`; `None` when it throws. */
    const parse: string -> Option<Document>
    /** `blocksToMarkdownLossy`. */
    const toMarkdown: Document -> string
    /** The `initialContent` prop as first rendered (`initialContentRef`); `None` when undefined. */
    const initialContent: Option<string>
    /** Whether the `onContentChange` prop was given. */
    const hasOnContentChange: bool

    var document: Document
    var isExternalUpdate: bool
    /** A `requestAnimationFrame` callback that clears `isExternalUpdate` is queued. */
    var framePending: bool
    var hasLoadedInitialContent: bool
    var timer: Timer
    /** The markdown passed to `onContentChange`, oldest first. */
    var emitted: seq<string>
    var mounted: bool
    /** How many times the initial content was loaded. */
    ghost var initialLoads: nat

    ghost predicate Valid()
      reads this
    {
      && (isExternalUpdate ==> framePending)
      && initialLoads == (if hasLoadedInitialContent then 1 else 0)
      && (!mounted ==> timer == Idle)
    }

    /** The first render: an empty guard, no timer, nothing loaded. */
    constructor (parse: string -> Option<Document>, toMarkdown: Document -> string,
                 initialContent: Option<string>, hasOnContentChange: bool, document: Document)
      ensures Valid() && mounted
      ensures this.parse == parse && this.toMarkdown == toMarkdown
      ensures this.initialContent == initialContent && this.hasOnContentChange == hasOnContentChange
      ensures this.document == document && emitted == [] && timer == Idle
      ensures !isExternalUpdate && !framePending && !hasLoadedInitialContent
    {
      this.parse := parse;
      this.toMarkdown := toMarkdown;
      this.initialContent := initialContent;
      this.hasOnContentChange := hasOnContentChange;
      this.document := document;
      isExternalUpdate := false;
      framePending := false;
      hasLoadedInitialContent := false;
      timer := Idle;
      emitted := [];
      mounted := true;
      initialLoads := 0;
    }

    /** `handleChange`: ignored under the guard; otherwise the document's markdown replaces any pending timer, due `DebounceMs` later. */
    method HandleChange(now: int)
      requires mounted
      modifies this`timer
      ensures old(isExternalUpdate) ==> timer == old(timer)
      ensures !old(isExternalUpdate) ==> timer == Step(old(timer), Change(now, toMarkdown(document))).timer
    {
      if isExternalUpdate {
        return;
      }
      var markdown := toMarkdown(document);
      timer := Pending(now + DebounceMs, markdown);
    }

    /** The user edits the document; the editor then notifies `handleChange`. */
    method UserEdit(newDocument: Document, now: int)
      requires Valid() && mounted
      modifies this`document, this`timer
      ensures Valid()
      ensures document == newDocument
      ensures isExternalUpdate ==> timer == old(timer)
      ensures !isExternalUpdate ==> timer == Pending(now + DebounceMs, toMarkdown(newDocument))
    {
      document := newDocument;
      HandleChange(now);
    }

    /** The clock reaches `now`: a due timer fires and calls `onContentChange` with its markdown, if that prop was given. */
    method Tick(now: int)
      requires Valid()
      modifies this`timer, this`emitted
      ensures Valid()
      ensures timer == Step(old(timer), Event.Tick(now)).timer
      ensures emitted == old(emitted) + (if hasOnContentChange then Step(old(timer), Event.Tick(now)).emitted else [])
    {
      if timer.Pending? && now >= timer.deadline {
        var markdown := timer.markdown;
        timer := Idle;
        if hasOnContentChange {
          emitted := emitted + [markdown];
        }
      }
    }

    /**
     * Parse `markdown` under the guard and replace the document only if parsing
     * succeeds; the guard is cleared at the next frame. The parent keeps the
     * handler after unmount, so it may also run on an unmounted view.
     */
    method LoadMarkdown(markdown: string, now: int)
      requires Valid()
      modifies this`isExternalUpdate, this`document, this`framePending, this`timer
      ensures Valid()
      ensures isExternalUpdate && framePending
      ensures document == if parse(markdown).Some? then parse(markdown).value else old(document)
      ensures timer == old(timer)
    {
      isExternalUpdate := true;
      var blocks := parse(markdown);
      if blocks.Some? {
        document := blocks.value;
        // `replaceBlocks` notifies the change handler of a mounted view, which sees the guard.
        if mounted {
          HandleChange(now);
        }
      }
      framePending := true;
    }

    /** `handleExternalContent`: content from the extension. */
    method HandleExternalContent(markdown: string, now: int)
      requires Valid()
      modifies this`isExternalUpdate, this`document, this`framePending, this`timer
      ensures Valid()
      ensures isExternalUpdate && framePending
      ensures document == if parse(markdown).Some? then parse(markdown).value else old(document)
      ensures timer == old(timer) && emitted == old(emitted)
    {
      LoadMarkdown(markdown, now);
    }

    /** The initial-load effect: at most once, and only for non-empty initial content. */
    method LoadInitialContent(now: int)
      requires Valid() && mounted
      modifies this`isExternalUpdate, this`document, this`framePending, this`timer, this`hasLoadedInitialContent, this`initialLoads
      ensures Valid() && initialLoads <= 1
      ensures old(hasLoadedInitialContent) || initialContent.None? || initialContent == Some("") ==>
        && document == old(document) && initialLoads == old(initialLoads)
        && isExternalUpdate == old(isExternalUpdate) && framePending == old(framePending)
      ensures !old(hasLoadedInitialContent) && initialContent.Some? && initialContent.value != "" ==>
        && hasLoadedInitialContent && initialLoads == 1 && isExternalUpdate
        && document == (if parse(initialContent.value).Some? then parse(initialContent.value).value else old(document))
      ensures timer == old(timer) && emitted == old(emitted)
    {
      if hasLoadedInitialContent {
        return;
      }
      if initialContent.Some? && initialContent.value != "" {
        hasLoadedInitialContent := true;
        initialLoads := initialLoads + 1;
        LoadMarkdown(initialContent.value, now);
      }
    }

    /** The next animation frame runs the queued callback, which clears the guard whatever the parse outcome. */
    method AnimationFrame()
      requires Valid()
      modifies this`isExternalUpdate, this`framePending
      ensures Valid() && !isExternalUpdate && !framePending
    {
      if framePending {
        isExternalUpdate := false;
        framePending := false;
      }
    }

    /** The cleanup effect: a pending timer is cleared, so its edit is dropped rather than emitted. */
    method Unmount()
      requires Valid()
      modifies this`timer, this`mounted
      ensures Valid() && !mounted && timer == Idle
    {
      if timer.Pending? {
        timer := Idle;
      }
      mounted := false;
    }
  }
}
