/**
 The clipboard poll and translation dispatch of `ClipboardTranslatorApp`.
 The window is reduced to three strings: the last clipboard value seen, and
 the texts of the original and translated panes. Each step is a pure function
 from a state and its inputs (the clipboard value read on this tick, the
 outcome of the HTTP exchange if one is made) to an `Effect`.
 */
module ClipboardApp {
  import opened Wrappers
  import opened PyJson
  import opened Translator

  /** The server the window's translator is built for. */
  const ServerUrl: string := "http://192.168.50.95:2210"

  datatype App = App(lastClipboard: string, original: string, translated: string)

  /** The state right after construction: nothing seen, both panes empty. */
  const Initial: App := App("", "", "")

  /** The state after a step, the translation request it sent (if any), and
      whether the slot raised because the reply was not a string (the
      translated pane only accepts text). */
  datatype Effect = Effect(next: App, sent: Option<Request>, slotRaised: bool)

  /** A step that changes nothing and sends nothing. */
  function Quiet(app: App): (e: Effect) {
    Effect(app, None, false)
  }

  /** `on_text_changed`: translate the original pane when it is non-empty and
      show the reply; leave everything alone when it is empty. */
  function OnTextChanged(app: App, x: Exchange): (e: Effect)
    ensures e.next.lastClipboard == app.lastClipboard && e.next.original == app.original
    ensures e.sent.Some? <==> app.original != ""
    ensures e.sent.Some? ==> PayloadText(e.sent.value) == app.original
    ensures e.sent.Some? ==> e.sent.value.url == ServerUrl + Endpoint
    ensures app.original == "" ==> e.next == app && !e.slotRaised
    ensures e.next.translated != app.translated ==> app.original != "" && e.next.translated != ""
    ensures app.original != "" && !e.slotRaised ==>
      JStr(e.next.translated) == TranslateText(ServerUrl, app.original, x).reply
    ensures e.slotRaised <==> app.original != "" && !TranslateText(ServerUrl, app.original, x).reply.JStr?
    ensures e.slotRaised ==> e.next == app
  {
    var text := app.original;
    if text == "" then Quiet(app)
    else
      var call := TranslateText(ServerUrl, text, x);
      if call.reply.JStr? then Effect(app.(translated := call.reply.s), Some(call.request), false)
      else Effect(app, Some(call.request), true)
  }

  /** `original_text.setPlainText(text)`: replace the pane's text, which fires
      `textChanged` and so runs `on_text_changed` at once. */
  function SetOriginal(app: App, text: string, x: Exchange): (e: Effect)
    ensures e.next.original == text && e.next.lastClipboard == app.lastClipboard
    ensures e.sent.Some? <==> text != ""
    ensures e.sent.Some? ==> PayloadText(e.sent.value) == text
    ensures e.sent.Some? ==> e.sent.value.url == ServerUrl + Endpoint
    ensures e.slotRaised <==> text != "" && !TranslateText(ServerUrl, text, x).reply.JStr?
    ensures e.slotRaised || text == "" ==> e.next.translated == app.translated
    ensures text != "" && !e.slotRaised ==>
      JStr(e.next.translated) == TranslateText(ServerUrl, text, x).reply
  {
    OnTextChanged(app.(original := text), x)
  }

  /** `check_clipboard`: on a changed clipboard value, remember it and show it
      in the original pane (which dispatches a translation); on an unchanged
      value, do nothing. */
  function CheckClipboard(app: App, clip: string, x: Exchange): (e: Effect)
    ensures e.next.lastClipboard == clip
    ensures clip == app.lastClipboard ==> e == Quiet(app)
    ensures clip != app.lastClipboard ==> e.next.original == clip
    ensures e.sent.Some? <==> clip != app.lastClipboard && clip != ""
    ensures e.sent.Some? ==> PayloadText(e.sent.value) == clip
    ensures e.slotRaised <==> e.sent.Some? && !TranslateText(ServerUrl, clip, x).reply.JStr?
    ensures e.sent.Some? && !e.slotRaised ==>
      JStr(e.next.translated) == TranslateText(ServerUrl, clip, x).reply
    ensures e.sent.None? || e.slotRaised ==> e.next.translated == app.translated
  {
    if clip != app.lastClipboard then SetOriginal(app.(lastClipboard := clip), clip, x)
    else Quiet(app)
  }

  /** The user types into the original pane (it is editable): the pane takes
      the new text and a translation is dispatched, but the clipboard
      snapshot is untouched. This is `SetOriginal` seen from the user's side:
      the same `textChanged` signal runs the same slot. */
  function UserEdit(app: App, text: string, x: Exchange): (e: Effect)
    ensures e.next.lastClipboard == app.lastClipboard
    ensures e.next.original == text
    ensures e.sent.Some? <==> text != ""
    ensures e.sent.Some? ==> PayloadText(e.sent.value) == text
    ensures e.sent.Some? ==> e.sent.value.url == ServerUrl + Endpoint
    ensures e.slotRaised <==> text != "" && !TranslateText(ServerUrl, text, x).reply.JStr?
    ensures e.slotRaised || text == "" ==> e.next.translated == app.translated
    ensures text != "" && !e.slotRaised ==>
      JStr(e.next.translated) == TranslateText(ServerUrl, text, x).reply
  {
    SetOriginal(app, text, x)
  }

  /** A second tick reading the same clipboard value is a no-op, so two such
      ticks update the panes and send requests at most once. */
  lemma RepeatedTickIsQuiet(app: App, clip: string, x1: Exchange, x2: Exchange)
    ensures CheckClipboard(CheckClipboard(app, clip, x1).next, clip, x2)
            == Quiet(CheckClipboard(app, clip, x1).next)
  {
  }

  /** Just after start-up an empty clipboard is not a change. */
  lemma EmptyClipboardAtStartupIsQuiet(x: Exchange)
    ensures CheckClipboard(Initial, "", x) == Quiet(Initial)
  {
  }

  /** When the clipboard is emptied, the translated pane keeps the previous
      translation: no request goes out and the pane is not cleared. */
  lemma ClearedClipboardKeepsStaleTranslation(app: App, x: Exchange)
    requires app.lastClipboard != ""
    ensures CheckClipboard(app, "", x).next == app.(lastClipboard := "", original := "")
    ensures CheckClipboard(app, "", x).sent == None
  {
  }

  /** A changed non-empty clipboard value whose reply is a string ends with
      exactly that reply in the translated pane. */
  lemma ChangedClipboardShowsReply(app: App, clip: string, x: Exchange)
    requires clip != app.lastClipboard && clip != ""
    requires Reply(x).JStr?
    ensures CheckClipboard(app, clip, x).next == App(clip, clip, Reply(x).s)
    ensures CheckClipboard(app, clip, x).sent == Some(BuildRequest(ServerUrl, clip))
  {
  }

  /** One poll: the clipboard value read and the outcome of the exchange a
      translation would make. */
  datatype Tick = Tick(clip: string, exchange: Exchange)

  /** The end state and the requests sent, in order, over a run of polls. */
  datatype Trace = Trace(final: App, sent: seq<Request>)

  function Sent(o: Option<Request>): (qs: seq<Request>) {
    match o
    case None => []
    case Some(q) => [q]
  }

  function Run(app: App, ticks: seq<Tick>): (t: Trace)
    decreases |ticks|
  {
    if |ticks| == 0 then Trace(app, [])
    else
      var e := CheckClipboard(app, ticks[0].clip, ticks[0].exchange);
      var rest := Run(e.next, ticks[1..]);
      Trace(rest.final, Sent(e.sent) + rest.sent)
  }

  /** The non-empty clipboard values that differ from the value seen just
      before them: the values a run should send for translation. */
  function Changes(last: string, ticks: seq<Tick>): (cs: seq<string>)
    decreases |ticks|
  {
    if |ticks| == 0 then []
    else
      var c := ticks[0].clip;
      (if c != last && c != "" then [c] else []) + Changes(c, ticks[1..])
  }

  /** After a run the snapshot is the value read on the last poll. */
  lemma {:induction false} RunSnapshotIsLastRead(app: App, ticks: seq<Tick>)
    requires |ticks| > 0
    ensures Run(app, ticks).final.lastClipboard == ticks[|ticks| - 1].clip
    decreases |ticks|
  {
    if |ticks| > 1 {
      var e := CheckClipboard(app, ticks[0].clip, ticks[0].exchange);
      RunSnapshotIsLastRead(e.next, ticks[1..]);
    }
  }

  /** A run of polls sends one request per change to a non-empty value, in
      order, each carrying that value; it sends nothing else. */
  lemma {:induction false} RunSendsExactlyTheChanges(app: App, ticks: seq<Tick>)
    ensures |Run(app, ticks).sent| == |Changes(app.lastClipboard, ticks)|
    ensures forall k :: 0 <= k < |Run(app, ticks).sent| ==>
      PayloadText(Run(app, ticks).sent[k]) == Changes(app.lastClipboard, ticks)[k]
    decreases |ticks|
  {
    if |ticks| > 0 {
      var e := CheckClipboard(app, ticks[0].clip, ticks[0].exchange);
      RunSendsExactlyTheChanges(e.next, ticks[1..]);
    }
  }

  /** Polls alone keep the original pane equal to the snapshot, from the
      initial state onward. */
  lemma {:induction false} RunKeepsOriginalAtSnapshot(app: App, ticks: seq<Tick>)
    requires app.original == app.lastClipboard
    ensures Run(app, ticks).final.original == Run(app, ticks).final.lastClipboard
    decreases |ticks|
  {
    if |ticks| > 0 {
      var e := CheckClipboard(app, ticks[0].clip, ticks[0].exchange);
      RunKeepsOriginalAtSnapshot(e.next, ticks[1..]);
    }
  }

  /** No run ever sends the empty text. */
  lemma RunNeverSendsEmpty(app: App, ticks: seq<Tick>)
    ensures forall k :: 0 <= k < |Run(app, ticks).sent| ==> PayloadText(Run(app, ticks).sent[k]) != ""
  {
    RunSendsExactlyTheChanges(app, ticks);
    ChangesNonEmpty(app.lastClipboard, ticks);
  }

  lemma {:induction false} ChangesNonEmpty(last: string, ticks: seq<Tick>)
    ensures forall k :: 0 <= k < |Changes(last, ticks)| ==> Changes(last, ticks)[k] != ""
    decreases |ticks|
  {
    if |ticks| > 0 {
      ChangesNonEmpty(ticks[0].clip, ticks[1..]);
    }
  }
}
