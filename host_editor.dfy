/**
 * The extension host's side of the sync protocol for one open markdown
 * document: answering `ready` with `init`, applying `contentChange` as one
 * full-range replacement under the `isApplyingEdit` echo guard, and
 * forwarding external document changes as `update`.
 *
 * `workspace.applyEdit` is split in two steps. The call replaces the text
 * and delivers the change notification for this document at once, while the
 * guard is set; the awaited promise settles in a later step, which clears
 * the guard. `inFlight` counts the edits whose promise has not settled.
 */
module MarkdownEditorProvider {
  import opened Wrappers
  import opened VsCode

  /** The nonce alphabet: upper-case letters, lower-case letters, digits. */
  const NonceChars: string := "ABCDEFGHIJKLMNOPQRSTUVWXYZabcdefghijklmnopqrstuvwxyz0123456789"

  const UpperLetters: string := "ABCDEFGHIJKLMNOPQRSTUVWXYZ"
  const LowerLetters: string := "abcdefghijklmnopqrstuvwxyz"
  const Digits: string := "0123456789"

  predicate IsAlphanumeric(c: char)
  {
    'A' <= c <= 'Z' || 'a' <= c <= 'z' || '0' <= c <= '9'
  }

  lemma NonceCharsInThreeRuns()
    ensures NonceChars == UpperLetters + LowerLetters + Digits
  {
  }

  lemma RunsAreAlphanumeric()
    ensures forall c :: c in UpperLetters ==> 'A' <= c <= 'Z'
    ensures forall c :: c in LowerLetters ==> 'a' <= c <= 'z'
    ensures forall c :: c in Digits ==> '0' <= c <= '9'
  {
  }

  /** The alphabet has 62 characters, all ASCII letters or digits. */
  lemma NonceCharsAlphanumeric()
    ensures |NonceChars| == 62
    ensures forall c :: c in NonceChars ==> IsAlphanumeric(c)
  {
    NonceCharsInThreeRuns();
    RunsAreAlphanumeric();
    forall c | c in NonceChars ensures IsAlphanumeric(c) {
      assert c in UpperLetters || c in LowerLetters || c in Digits;
    }
  }

  /**
   * `generateNonce`: 32 characters, each picked from the alphabet at index
   * `floor(r * 62)` for one `Math.random()` draw `r` in [0, 1).
   */
  function GenerateNonce(draws: seq<real>): (nonce: string)
    requires |draws| == 32
    requires forall i :: 0 <= i < |draws| ==> 0.0 <= draws[i] < 1.0
    ensures |nonce| == 32
    ensures forall i :: 0 <= i < |nonce| ==> nonce[i] in NonceChars && IsAlphanumeric(nonce[i])
  {
    NonceCharsAlphanumeric();
    seq(32, i requires 0 <= i < 32 => NonceChars[(draws[i] * 62.0).Floor])
  }

  /** The state of one editor: the document text, the guard, unsettled edits, messages posted to the webview, and whether the panel was disposed. */
  datatype Session = Session(text: string, applying: bool, inFlight: nat, posted: seq<ExtensionMessage>, disposed: bool)

  /** The session when the custom editor is resolved. */
  function Opened(text: string): Session
  {
    Session(text, false, 0, [], false)
  }

  /** The guard is only ever set while an edit is outstanding; so with none outstanding it is clear. */
  ghost predicate GuardInvariant(s: Session)
  {
    s.applying ==> s.inFlight > 0
  }

  /** The two tests of the message handler: `ready`, and `contentChange` with string content. */
  function Decode(raw: HostInbound): (r: Option<WebviewMessage>)
    ensures r == Some(Ready) <==> raw.tag == "ready"
    ensures (r.Some? && r.value.ContentChange?) <==> raw.tag == "contentChange" && raw.content.Some?
    ensures r.Some? && r.value.ContentChange? ==> r.value.content == raw.content.value
  {
    if raw.tag == "ready" then Some(Ready)
    else if raw.tag == "contentChange" && raw.content.Some? then Some(ContentChange(raw.content.value))
    else None
  }

  /** The host reads every message the webview's helpers post as that message. */
  lemma DecodeToHostInbound(m: WebviewMessage)
    ensures Decode(ToHostInbound(m)) == Some(m)
  {
  }

  datatype SendKind = SendInit | SendUpdate

  /** `sendContentToWebview`: post the document's full current text under the given type. */
  function SendContent(s: Session, kind: SendKind): (r: Session)
    ensures |r.posted| == |s.posted| + 1 && r.posted[..|s.posted|] == s.posted
    ensures r.posted[|s.posted|].content == s.text
    ensures r.posted[|s.posted|].Init? <==> kind == SendInit
    ensures r.(posted := s.posted) == s
  {
    var m := match kind case SendInit => Init(s.text) case SendUpdate => Update(s.text);
    s.(posted := s.posted + [m])
  }

  /** The `onDidChangeTextDocument` listener: another document is ignored; this one is sent as `update` unless the guard is set. */
  function ChangeListener(s: Session, uri: string, changedUri: string): (r: Session)
    ensures changedUri != uri || s.disposed || s.applying ==> r == s
    ensures changedUri == uri && !s.disposed && !s.applying ==> r == s.(posted := s.posted + [Update(s.text)])
  {
    if s.disposed || changedUri != uri || s.applying then s else SendContent(s, SendUpdate)
  }

  /** `workspace.applyEdit` of one full-range replacement: the text becomes `newText` and the listener sees the change. */
  function ApplyEdit(s: Session, uri: string, newText: string): (r: Session)
    ensures r.(posted := s.posted) == s.(text := newText)
    ensures s.applying || s.disposed ==> r.posted == s.posted
    ensures !s.applying && !s.disposed ==> r.posted == s.posted + [Update(newText)]
  {
    ChangeListener(s.(text := newText), uri, uri)
  }

  /** The `onDidReceiveMessage` handler (up to the awaited promise). */
  function OnMessage(s: Session, uri: string, raw: HostInbound): (r: Session)
    ensures r.inFlight == s.inFlight || r.inFlight == s.inFlight + 1
  {
    if s.disposed then s
    else match Decode(raw)
      case Some(Ready) => SendContent(s, SendInit)
      case Some(ContentChange(c)) =>
        if c == s.text then s
        else ApplyEdit(s.(applying := true, inFlight := s.inFlight + 1), uri, c)
      case None => s
  }

  /** The continuation after `await workspace.applyEdit(edit)`: the guard is cleared. */
  function EditSettled(s: Session): (r: Session)
    ensures s.inFlight == 0 ==> r == s
  {
    if s.inFlight == 0 then s else s.(applying := false, inFlight := s.inFlight - 1)
  }

  /** Another party edits document `changedUri` to `newText`; VS Code then notifies the listener. */
  function DocumentEdited(s: Session, uri: string, changedUri: string, newText: string): (r: Session)
    ensures changedUri != uri ==> r == s
    ensures changedUri == uri ==> r.(posted := s.posted) == s.(text := newText)
    ensures r.posted == s.posted + (if changedUri == uri && !s.applying && !s.disposed then [Update(newText)] else [])
  {
    ChangeListener(if changedUri == uri then s.(text := newText) else s, uri, changedUri)
  }

  /** `onDidDispose`: both subscriptions are disposed, so no handler runs afterwards. */
  function Disposed(s: Session): (r: Session)
    ensures r.disposed && r.(disposed := s.disposed) == s
  {
    s.(disposed := true)
  }

  /** The events an open editor sees. */
  datatype Event =
    | Message(raw: HostInbound)
    | Settled
    | Edited(changedUri: string, newText: string)
    | Dispose

  function Step(s: Session, uri: string, e: Event): Session
  {
    match e
    case Message(raw) => OnMessage(s, uri, raw)
    case Settled => EditSettled(s)
    case Edited(changedUri, newText) => DocumentEdited(s, uri, changedUri, newText)
    case Dispose => Disposed(s)
  }

  function Run(s: Session, uri: string, es: seq<Event>): Session
    decreases |es|
  {
    if es == [] then s else Run(Step(s, uri, es[0]), uri, es[1..])
  }

  // ---------------------------------------------------------------------
  // Properties of the handlers

  /** `ready` posts exactly one `init` with the current text and changes nothing else. */
  lemma ReadyPostsInit(s: Session, uri: string, raw: HostInbound)
    requires !s.disposed && raw.tag == "ready"
    ensures OnMessage(s, uri, raw) == s.(posted := s.posted + [Init(s.text)])
  {
  }

  /**
   * A `contentChange` leaves the document equal to its content and posts
   * nothing back, whether or not the text differed; when it did differ, one
   * edit is outstanding and the guard is set until it settles.
   */
  lemma ContentChangeAppliesWithoutEcho(s: Session, uri: string, c: string)
    requires !s.disposed
    ensures var r := OnMessage(s, uri, HostInbound("contentChange", Some(c)));
      && r.text == c
      && r.posted == s.posted
      && (c == s.text ==> r == s)
      && (c != s.text ==> r.applying && r.inFlight == s.inFlight + 1)
  {
  }

  /** A message that is neither `ready` nor a `contentChange` with string content changes nothing. */
  lemma OtherMessagesIgnored(s: Session, uri: string, raw: HostInbound)
    requires raw.tag != "ready"
    requires raw.tag != "contentChange" || raw.content.None?
    ensures OnMessage(s, uri, raw) == s
  {
  }

  /** After a differing `contentChange` and its settlement the document holds the content, the guard is clear again and nothing was posted. */
  lemma ApplyThenSettle(s: Session, uri: string, c: string)
    requires !s.disposed && c != s.text
    ensures var r := EditSettled(OnMessage(s, uri, HostInbound("contentChange", Some(c))));
      r == s.(text := c, applying := false)
  {
  }

  /** An external change to this document outside an edit posts `update` with the full new text; a change to another document is ignored. */
  lemma ExternalChangePostsUpdate(s: Session, uri: string, other: string, newText: string)
    requires !s.disposed && !s.applying && other != uri
    ensures DocumentEdited(s, uri, uri, newText) == s.(text := newText, posted := s.posted + [Update(newText)])
    ensures DocumentEdited(s, uri, other, newText) == s
  {
  }

  /**
   * The guard also hides genuine external changes: an edit by someone else
   * that lands right after a differing `contentChange`, while the guard is
   * still set, changes the document but is not sent to the webview.
   */
  lemma ExternalChangeDuringApplyIsNotForwarded(s: Session, uri: string, c: string, newText: string)
    requires !s.disposed && c != s.text
    ensures var during := OnMessage(s, uri, HostInbound("contentChange", Some(c)));
      var r := DocumentEdited(during, uri, uri, newText);
      r.text == newText && r.posted == s.posted
  {
  }

  /**
   * The guard is one flag shared by all edits, so the first settlement of two
   * overlapping webview edits clears it while the second is still
   * outstanding, and an external change made then is forwarded as `update`.
   */
  lemma SettlementClearsGuardForAllEdits(s: Session, uri: string, c1: string, c2: string, newText: string)
    requires !s.disposed && c1 != s.text && c2 != c1
    ensures var first := OnMessage(s, uri, HostInbound("contentChange", Some(c1)));
      var second := OnMessage(first, uri, HostInbound("contentChange", Some(c2)));
      var settled := EditSettled(second);
      && settled.inFlight == s.inFlight + 1 && !settled.applying
      && DocumentEdited(settled, uri, uri, newText).posted == s.posted + [Update(newText)]
  {
  }

  /** Every step keeps the guard invariant. */
  lemma StepKeepsGuardInvariant(s: Session, uri: string, e: Event)
    requires GuardInvariant(s)
    ensures GuardInvariant(Step(s, uri, e))
  {
  }

  /** Every run keeps the guard invariant: in every state with no edit outstanding, the guard is false. */
  lemma {:induction false} RunKeepsGuardInvariant(s: Session, uri: string, es: seq<Event>)
    requires GuardInvariant(s)
    ensures GuardInvariant(Run(s, uri, es))
    ensures Run(s, uri, es).inFlight == 0 ==> !Run(s, uri, es).applying
    decreases |es|
  {
    if es != [] {
      StepKeepsGuardInvariant(s, uri, es[0]);
      RunKeepsGuardInvariant(Step(s, uri, es[0]), uri, es[1..]);
    }
  }

  /** `posted` only grows, and everything appended after `prefix` is an `init`. */
  ghost predicate OnlyInitsAfter(prefix: seq<ExtensionMessage>, posted: seq<ExtensionMessage>)
  {
    && |prefix| <= |posted|
    && posted[..|prefix|] == prefix
    && forall k :: |prefix| <= k < |posted| ==> posted[k].Init?
  }

  /** A step other than an edit of this document by someone else posts nothing but `init`. */
  lemma StepWithoutExternalEditPostsOnlyInit(s: Session, uri: string, e: Event)
    requires !(e.Edited? && e.changedUri == uri)
    ensures OnlyInitsAfter(s.posted, Step(s, uri, e).posted)
  {
    var r := Step(s, uri, e);
    if e.Message? && !s.disposed && Decode(e.raw) == Some(Ready) {
      assert r.posted == s.posted + [Init(s.text)];
    } else {
      assert r.posted == s.posted;
    }
  }

  /**
   * No echo: as long as nobody else edits this document, the host sends the
   * webview nothing but `init` replies, however many `contentChange`
   * messages it applies and whatever their order with the settlements.
   */
  lemma {:induction false} NoUpdateWithoutExternalEdits(s: Session, uri: string, es: seq<Event>)
    requires forall i :: 0 <= i < |es| ==> !(es[i].Edited? && es[i].changedUri == uri)
    ensures OnlyInitsAfter(s.posted, Run(s, uri, es).posted)
    decreases |es|
  {
    if es != [] {
      var s1 := Step(s, uri, es[0]);
      StepWithoutExternalEditPostsOnlyInit(s, uri, es[0]);
      NoUpdateWithoutExternalEdits(s1, uri, es[1..]);
      var r := Run(s, uri, es);
      assert r == Run(s1, uri, es[1..]);
      assert r.posted[..|s1.posted|] == s1.posted;
      assert r.posted[..|s.posted|] == r.posted[..|s1.posted|][..|s.posted|];
    }
  }

  /** After disposal no event posts anything. */
  lemma {:induction false} NothingPostedAfterDispose(s: Session, uri: string, es: seq<Event>)
    requires s.disposed
    ensures Run(s, uri, es).posted == s.posted
    ensures Run(s, uri, es).disposed
    decreases |es|
  {
    if es != [] {
      NothingPostedAfterDispose(Step(s, uri, es[0]), uri, es[1..]);
    }
  }

  /**
   * One open custom editor: the closure state of `resolveCustomTextEditor`
   * together with the document it edits.
   */
  class EditorSession {
    const uri: string
    var text: string
    var isApplyingEdit: bool
    var inFlight: nat
    var posted: seq<ExtensionMessage>
    var disposed: bool

    function State(): Session
      reads this
    {
      Session(text, isApplyingEdit, inFlight, posted, disposed)
    }

    ghost predicate Valid()
      reads this
    {
      GuardInvariant(State())
    }

    constructor (uri: string, text: string)
      ensures Valid() && this.uri == uri && State() == Opened(text)
    {
      this.uri := uri;
      this.text := text;
      isApplyingEdit := false;
      inFlight := 0;
      posted := [];
      disposed := false;
    }

    method SendContentToWebview(kind: SendKind)
      modifies this`posted
      ensures State() == SendContent(old(State()), kind)
    {
      var m := if kind == SendInit then Init(text) else Update(text);
      posted := posted + [m];
    }

    method OnDidChangeTextDocument(changedUri: string)
      modifies this`posted
      ensures State() == ChangeListener(old(State()), uri, changedUri)
    {
      if disposed || changedUri != uri {
        return;
      }
      if isApplyingEdit {
        return;
      }
      SendContentToWebview(SendUpdate);
    }

    /** `workspace.applyEdit` replacing the range from offset 0 to the text's length. */
    method ApplyWorkspaceEdit(newText: string)
      modifies this`text, this`posted
      ensures State() == ApplyEdit(old(State()), uri, newText)
    {
      text := newText;
      OnDidChangeTextDocument(uri);
    }

    method OnDidReceiveMessage(raw: HostInbound)
      requires Valid()
      modifies this
      ensures Valid()
      ensures State() == OnMessage(old(State()), uri, raw)
    {
      if disposed {
        return;
      }
      if raw.tag == "ready" {
        SendContentToWebview(SendInit);
        return;
      }
      if raw.tag == "contentChange" && raw.content.Some? {
        var content := raw.content.value;
        if content == text {
          return;
        }
        isApplyingEdit := true;
        inFlight := inFlight + 1;
        ApplyWorkspaceEdit(content);
      }
    }

    /** The awaited `applyEdit` promise settles and the handler resumes. */
    method ApplyEditSettles()
      requires Valid()
      modifies this
      ensures Valid()
      ensures State() == EditSettled(old(State()))
    {
      if inFlight > 0 {
        isApplyingEdit := false;
        inFlight := inFlight - 1;
      }
    }

    /** Someone else edits document `changedUri`; VS Code notifies the listener. */
    method ExternalEdit(changedUri: string, newText: string)
      requires Valid()
      modifies this
      ensures Valid()
      ensures State() == DocumentEdited(old(State()), uri, changedUri, newText)
    {
      if changedUri == uri {
        text := newText;
      }
      OnDidChangeTextDocument(changedUri);
    }

    method Dispose()
      requires Valid()
      modifies this
      ensures Valid()
      ensures State() == Disposed(old(State()))
    {
      disposed := true;
    }
  }
}
