/**
 * The webview side of the message layer: the tagged message types, the
 * type-tag filter applied to window messages, the post helpers, the
 * persisted editor state and the development-mode stand-in used when the
 * page runs outside VS Code.
 */
module VsCode {
  import opened Wrappers

  /** Messages from the extension host to the webview. */
  datatype ExtensionMessage = Init(content: string) | Update(content: string)

  /** Messages from the webview to the extension host. */
  datatype WebviewMessage = Ready | ContentChange(content: string)

  /** The state persisted in webview memory across tab switches. */
  datatype EditorState = EditorState(content: string)

  /** `event.data` of a window message: nothing (null or undefined) or an object with a type tag and content. */
  datatype WindowData = NoData | Data(tag: string, content: string)

  /** A message as the extension host receives it: a type tag and `content` when that field is a string. */
  datatype HostInbound = HostInbound(tag: string, content: Option<string>)

  function Tag(m: ExtensionMessage): string
  {
    match m
    case Init(_) => "init"
    case Update(_) => "update"
  }

  /** The object the host posts: `{ type, content }`. */
  function ToWindowData(m: ExtensionMessage): (d: WindowData)
    ensures d.Data? && d.tag == Tag(m) && d.content == m.content
  {
    Data(Tag(m), m.content)
  }

  /** The object the webview posts: `{ type: 'ready' }` or `{ type: 'contentChange', content }`. */
  function ToHostInbound(m: WebviewMessage): (h: HostInbound)
    ensures m.Ready? ==> h == HostInbound("ready", None)
    ensures m.ContentChange? ==> h == HostInbound("contentChange", Some(m.content))
  {
    match m
    case Ready => HostInbound("ready", None)
    case ContentChange(c) => HostInbound("contentChange", Some(c))
  }

  /** The filter in `onExtensionMessage`: present data whose tag is `init` or `update` is forwarded, everything else is dropped. */
  function Accept(d: WindowData): (r: Option<ExtensionMessage>)
    ensures r.Some? <==> d.Data? && (d.tag == "init" || d.tag == "update")
    ensures r.Some? ==> Tag(r.value) == d.tag && r.value.content == d.content
  {
    match d
    case NoData => None
    case Data(tag, content) =>
      if tag == "init" then Some(Init(content))
      else if tag == "update" then Some(Update(content))
      else None
  }

  /** Whatever the host posts passes the filter unchanged. */
  lemma AcceptToWindowData(m: ExtensionMessage)
    ensures Accept(ToWindowData(m)) == Some(m)
  {
    match m
    case Init(c) =>
    case Update(c) =>
  }

  /**
   * The VS Code webview API as the page sees it. Outside VS Code the stub's
   * `postMessage` and `setState` only write to the console and `getState`
   * returns undefined, so nothing is posted or stored.
   */
  class Api {
    const inVsCode: bool
    /** Messages delivered to the extension host, oldest first. */
    var posted: seq<WebviewMessage>
    /** The platform's persisted webview state. */
    var stored: Option<EditorState>
    /** Registered window `message` listeners, by id. */
    var listeners: set<nat>
    var nextListener: nat

    ghost predicate Valid()
      reads this
    {
      && (forall id :: id in listeners ==> id < nextListener)
      && (!inVsCode ==> posted == [] && stored == None)
    }

    /** `acquireVsCodeApi()` when available, with the state VS Code kept for this webview; the stub otherwise. */
    constructor (inVsCode: bool, restored: Option<EditorState>)
      ensures Valid()
      ensures this.inVsCode == inVsCode && posted == [] && listeners == {}
      ensures stored == if inVsCode then restored else None
    {
      this.inVsCode := inVsCode;
      posted := [];
      stored := if inVsCode then restored else None;
      listeners := {};
      nextListener := 0;
    }

    method PostMessage(m: WebviewMessage)
      requires Valid()
      modifies this`posted
      ensures Valid()
      ensures posted == old(posted) + (if inVsCode then [m] else [])
    {
      if inVsCode {
        posted := posted + [m];
      }
    }

    /** `sendReady`: post exactly `{ type: 'ready' }`. */
    method SendReady()
      requires Valid()
      modifies this`posted
      ensures Valid()
      ensures posted == old(posted) + (if inVsCode then [Ready] else [])
    {
      PostMessage(Ready);
    }

    /** `sendContentChange`: post the content unchanged. */
    method SendContentChange(content: string)
      requires Valid()
      modifies this`posted
      ensures Valid()
      ensures posted == old(posted) + (if inVsCode then [ContentChange(content)] else [])
    {
      PostMessage(ContentChange(content));
    }

    /** `saveEditorState`: delegates to `setState`. */
    method SaveEditorState(state: EditorState)
      requires Valid()
      modifies this`stored
      ensures Valid()
      ensures stored == if inVsCode then Some(state) else None
    {
      if inVsCode {
        stored := Some(state);
      }
    }

    /** `getEditorState`: delegates to `getState`, which the stub answers with undefined. */
    method GetEditorState() returns (state: Option<EditorState>)
      requires Valid()
      ensures state == stored
      ensures !inVsCode ==> state == None
    {
      state := if inVsCode then stored else None;
    }

    /** `onExtensionMessage`: register a listener; the id it returns names the unsubscribe function. */
    method OnExtensionMessage() returns (id: nat)
      requires Valid()
      modifies this`listeners, this`nextListener
      ensures Valid()
      ensures id !in old(listeners) && listeners == old(listeners) + {id}
      ensures id == old(nextListener) && nextListener == old(nextListener) + 1
    {
      id := nextListener;
      listeners := listeners + {id};
      nextListener := nextListener + 1;
    }

    /** The returned unsubscribe function: remove the listener. */
    method Unsubscribe(id: nat)
      requires Valid()
      modifies this`listeners
      ensures Valid()
      ensures listeners == old(listeners) - {id}
    {
      listeners := listeners - {id};
    }

    /**
     * The window dispatches `data` to listener `id`: the message the
     * callback receives, if any. A removed listener receives nothing.
     */
    method Deliver(id: nat, data: WindowData) returns (received: Option<ExtensionMessage>)
      ensures id !in listeners ==> received == None
      ensures id in listeners ==> received == Accept(data)
    {
      received := if id in listeners then Accept(data) else None;
    }
  }
}
