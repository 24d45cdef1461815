/**
 * The two endpoints wired together through the message layer: each
 * message the host posts is handed to the webview's window as the object
 * `{ type, content }`, and each message the webview posts is handed to the
 * host's handler. These client methods use only the endpoints' contracts.
 */
module SyncScenarios {
  import opened Wrappers
  import opened VsCode
  import opened MarkdownEditorProvider
  import opened App

  /**
   * The handshake and one edit: the webview mounts and sends `ready`, the
   * host answers `init` with the document, the webview shows it, the frame
   * passes, the user types `typed`, and the host applies it. The document
   * ends as `typed`, the host sent only the `init`, and its guard is clear.
   */
  method HandshakeThenEdit(uri: string, docText: string, typed: string)
    returns (finalText: string, toWebview: seq<ExtensionMessage>, toHost: seq<WebviewMessage>, shown: string, guardAfter: bool)
    ensures finalText == typed
    ensures toWebview == [Init(docText)]
    ensures toHost == [Ready, ContentChange(typed)]
    ensures shown == typed
    ensures !guardAfter
  {
    var host := new EditorSession(uri, docText);
    var api := new Api(true, None);
    var app := new TextareaApp(api);
    app.Mount();
    host.OnDidReceiveMessage(ToHostInbound(api.posted[0]));
    assert host.posted == [Init(docText)];
    AcceptToWindowData(host.posted[0]);
    app.OnWindowMessage(ToWindowData(host.posted[0]));
    assert app.content == docText;
    app.AnimationFrame();
    app.HandleChange(typed);
    assert api.posted == [Ready, ContentChange(typed)];
    host.OnDidReceiveMessage(ToHostInbound(api.posted[1]));
    host.ApplyEditSettles();
    finalText, toWebview, toHost, shown, guardAfter := host.text, host.posted, api.posted, app.content, host.isApplyingEdit;
  }

  /**
   * An external edit reaches an idle webview as `update`; the textarea's
   * change notification in the same frame is not echoed back, so the host
   * receives nothing after `ready`.
   */
  method ExternalUpdateIsNotEchoed(uri: string, docText: string, edited: string)
    returns (toWebview: seq<ExtensionMessage>, toHost: seq<WebviewMessage>, shown: string, saved: Option<EditorState>)
    ensures toWebview == [Init(docText), Update(edited)]
    ensures toHost == [Ready]
    ensures shown == edited && saved == Some(EditorState(edited))
  {
    var host := new EditorSession(uri, docText);
    var api := new Api(true, None);
    var app := new TextareaApp(api);
    app.Mount();
    host.OnDidReceiveMessage(ToHostInbound(api.posted[0]));
    AcceptToWindowData(host.posted[0]);
    app.OnWindowMessage(ToWindowData(host.posted[0]));
    app.AnimationFrame();
    host.ExternalEdit(uri, edited);
    assert host.posted == [Init(docText), Update(edited)];
    AcceptToWindowData(host.posted[1]);
    app.OnWindowMessage(ToWindowData(host.posted[1]));
    // the change notification caused by the update, before the next frame
    app.HandleChange(app.content);
    toWebview, toHost, shown, saved := host.posted, api.posted, app.content, api.stored;
  }

  /**
   * Restored state is shown at once, yet `ready` is still sent; after
   * unmounting, a message from the host no longer reaches the textarea.
   */
  method RestoredStateStillSendsReady(savedText: string, late: string)
    returns (initial: string, toHost: seq<WebviewMessage>, shownAfterUnmount: string)
    requires savedText != ""
    ensures initial == savedText && shownAfterUnmount == savedText
    ensures toHost == [Ready]
  {
    var api := new Api(true, Some(EditorState(savedText)));
    var app := new TextareaApp(api);
    initial := app.content;
    app.Mount();
    app.Unmount();
    app.OnWindowMessage(Data("update", late));
    toHost, shownAfterUnmount := api.posted, app.content;
  }

  /**
   * Mounting, unmounting and mounting again: the second subscription gets a
   * new id, so the first one's unsubscribe stays in effect, and a host
   * message sent to the old id reaches nobody.
   */
  method RemountGetsFreshListener(typed: string, late: string)
    returns (first: nat, second: nat, toOld: Option<ExtensionMessage>, toHost: seq<WebviewMessage>)
    ensures first != second
    ensures toOld == None
    ensures toHost == [Ready, ContentChange(typed), Ready]
  {
    var api := new Api(true, None);
    var app := new TextareaApp(api);
    app.Mount();
    first := app.subscription.value;
    app.Unmount();
    app.HandleChange(typed);
    app.Mount();
    second := app.subscription.value;
    toOld := api.Deliver(first, Data("update", late));
    toHost := api.posted;
  }
}
