/**
 * The textarea webview: its initial-state decision, the handler for
 * `init`/`update`, the user-edit handler and the mount effect. The
 * `isReceivingUpdate` guard is cleared by a `requestAnimationFrame`
 * callback, modelled as an explicit frame step.
 */
module App {
  import opened Wrappers
  import opened VsCode

  /** The placeholder shown in development mode. */
  const DevContent: string :=
    "# Welcome to Nota\n\nThis is a **markdown** editor running in development mode.\n\n## Features\n"
    + "- Simple textarea-based editing\n- Syncs with VS Code extension\n- Persists state across tab switches\n\n"
    + "```javascript\nconst greeting = \"Hello, World!\";\nconsole.log(greeting);\n```\n\n"
    + "Edit this content to test the editor.\n"

  datatype InitialState = InitialState(content: string, isInitialized: bool)

  /** Saved state is usable when its content is a non-empty string (the truthiness test `savedState?.content`). */
  predicate Restorable(saved: Option<EditorState>)
  {
    saved.Some? && saved.value.content != ""
  }

  /** `getInitialState`: saved content first, then the development placeholder, otherwise wait for `init`. */
  function GetInitialState(saved: Option<EditorState>, inVsCode: bool): (r: InitialState)
    ensures Restorable(saved) ==> r == InitialState(saved.value.content, true)
    ensures !Restorable(saved) && !inVsCode ==> r == InitialState(DevContent, true)
    ensures !Restorable(saved) && inVsCode ==> r == InitialState("", false)
  {
    if Restorable(saved) then InitialState(saved.value.content, true)
    else if !inVsCode then InitialState(DevContent, true)
    else InitialState("", false)
  }

  /**
   * The three-way decision seen from its outcome: the webview starts
   * initialized exactly when there is something to show, and it starts empty
   * exactly when it waits for `init`.
   */
  lemma InitialStateWaitsExactlyWhenEmpty(saved: Option<EditorState>, inVsCode: bool)
    ensures var r := GetInitialState(saved, inVsCode);
      && (r.isInitialized <==> Restorable(saved) || !inVsCode)
      && (r.content == "" <==> !r.isInitialized)
  {
    assert |DevContent| > 0;
  }

  /** The textarea component with its state, ref and the VS Code API it talks through. */
  class TextareaApp {
    const api: Api
    var content: string
    var isInitialized: bool
    var isReceivingUpdate: bool
    /** A `requestAnimationFrame` callback that clears the guard is queued. */
    var framePending: bool
    /** The id of the window listener while mounted. */
    var subscription: Option<nat>

    ghost predicate Valid()
      reads this, api
    {
      && api.Valid()
      && (isReceivingUpdate ==> framePending)
      && (subscription.Some? ==> subscription.value in api.listeners)
    }

    /** The first render: state taken from `getInitialState`. */
    constructor (api: Api)
      requires api.Valid()
      ensures Valid() && this.api == api
      ensures InitialState(content, isInitialized) == GetInitialState(api.stored, api.inVsCode)
      ensures !isReceivingUpdate && !framePending && subscription == None
    {
      var saved := api.GetEditorState();
      var initial := GetInitialState(saved, api.inVsCode);
      this.api := api;
      content := initial.content;
      isInitialized := initial.isInitialized;
      isReceivingUpdate := false;
      framePending := false;
      subscription := None;
    }

    /** The mount effect: subscribe to extension messages, and send `ready` exactly when running in VS Code. */
    method Mount()
      requires Valid() && subscription == None
      modifies this`subscription, api`listeners, api`nextListener, api`posted
      ensures Valid()
      ensures subscription == Some(old(api.nextListener)) && api.listeners == old(api.listeners) + {subscription.value}
      ensures api.nextListener == old(api.nextListener) + 1
      ensures api.posted == old(api.posted) + (if api.inVsCode then [Ready] else [])
      ensures api.stored == old(api.stored)
    {
      var id := api.OnExtensionMessage();
      subscription := Some(id);
      if api.inVsCode {
        api.SendReady();
      }
    }

    /** The effect's cleanup: unsubscribe. */
    method Unmount()
      requires Valid()
      modifies this`subscription, api`listeners
      ensures Valid() && subscription == None
      ensures api.listeners == old(api.listeners) - (if old(subscription).Some? then {old(subscription).value} else {})
      ensures api.posted == old(api.posted) && api.stored == old(api.stored)
    {
      if subscription.Some? {
        api.Unsubscribe(subscription.value);
      }
      subscription := None;
    }

    /** `handleExtensionMessage`: take over the content, persist it, mark initialized and raise the guard until the next frame. */
    method HandleExtensionMessage(message: ExtensionMessage)
      requires Valid()
      modifies this`content, this`isInitialized, this`isReceivingUpdate, this`framePending, api`stored
      ensures Valid()
      ensures content == message.content && isInitialized
      ensures isReceivingUpdate && framePending
      ensures api.stored == if api.inVsCode then Some(EditorState(message.content)) else None
      ensures api.posted == old(api.posted) && api.listeners == old(api.listeners)
    {
      isReceivingUpdate := true;
      content := message.content;
      api.SaveEditorState(EditorState(message.content));
      isInitialized := true;
      framePending := true;
    }

    /** A window `message` event: the listener filters it and passes `init`/`update` to the handler. */
    method OnWindowMessage(data: WindowData)
      requires Valid()
      modifies this`content, this`isInitialized, this`isReceivingUpdate, this`framePending, api`stored
      ensures Valid()
      ensures var m := if old(subscription).Some? && old(subscription).value in old(api.listeners) then Accept(data) else None;
        && (m.None? ==> content == old(content) && isInitialized == old(isInitialized) && isReceivingUpdate == old(isReceivingUpdate)
                        && framePending == old(framePending) && api.stored == old(api.stored))
        && (m.Some? ==> content == m.value.content && isInitialized && isReceivingUpdate && framePending
                        && api.stored == (if api.inVsCode then Some(EditorState(m.value.content)) else None))
      ensures api.posted == old(api.posted) && api.listeners == old(api.listeners)
    {
      if subscription.Some? {
        var m := api.Deliver(subscription.value, data);
        if m.Some? {
          HandleExtensionMessage(m.value);
        }
      }
    }

    /** The next animation frame runs the queued callback, which clears the guard. */
    method AnimationFrame()
      requires Valid()
      modifies this`isReceivingUpdate, this`framePending
      ensures Valid() && !framePending
      ensures isReceivingUpdate == false
    {
      if framePending {
        isReceivingUpdate := false;
        framePending := false;
      }
    }

    /** `handleChange`: keep and persist the user's text; post `contentChange` only when no update is being received. */
    method HandleChange(newContent: string)
      requires Valid()
      modifies this`content, api`stored, api`posted
      ensures Valid()
      ensures content == newContent
      ensures api.stored == if api.inVsCode then Some(EditorState(newContent)) else None
      ensures api.posted == old(api.posted) + (if !isReceivingUpdate && api.inVsCode then [ContentChange(newContent)] else [])
      ensures api.listeners == old(api.listeners)
    {
      content := newContent;
      api.SaveEditorState(EditorState(newContent));
      if !isReceivingUpdate {
        api.SendContentChange(newContent);
      }
    }
  }
}
