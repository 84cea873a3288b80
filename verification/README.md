# ClipboardQT translation core, modelled in Dafny

ClipboardQT is a desktop window that polls the system clipboard once a second,
shows each new clipboard text in an "Original Text" pane, and sends it to a
translation server, showing the reply in a "Translated Text" pane. Two pieces
of it hold real logic, and this project models both:

- `ClipboardTranslator.translate_text` (module `Translator`, file
  `translator.dfy`). It POSTs `{"text": text}` to `server_url + "/translate"`
  with a 10-second timeout. It then turns the outcome into the value it
  returns. For an object body, the reply is the first *truthy* value among the
  fields `translatedText`, `translated_text`, `translation`, `result` and
  `text`, chained with Python's `or`. A bare JSON string is taken as the
  translation. Anything else yields `Translation failed: No translation in
  response`. Request exceptions become `Translation error: <message>` and
  value errors become `JSON parsing error: <message>`.
- `ClipboardTranslatorApp.check_clipboard` and `on_text_changed` (module
  `ClipboardApp`, file `clipboard_app.dfy`). The window keeps a snapshot
  `last_clipboard_text` that starts as `""`. A poll that reads a different
  value stores it and writes it into the original pane. Writing the pane fires
  `textChanged`, which translates the pane's text when it is non-empty and
  shows the reply.

Module `PyJson` (`py_json.dfy`) holds the decoded JSON value and the Python
semantics the translator relies on: truthiness, `a or b` and `dict.get`.
Module `Wrappers` holds `Option`.

I/O becomes input values. The HTTP exchange is an `Exchange`: either `post`
raised a request exception, or a response came back with a status code, the
message `raise_for_status` would raise, and a body that did or did not
decode. The clipboard value read on a poll is an input string. Exception
messages (`str(e)`) are inputs too.

Behaviour of the code that the model keeps:

- `raise_for_status` raises only for status codes 400 to 599. Any other
  status goes on to body decoding, so a 3xx or 1xx response is interpreted
  like a 200.
- A failed `response.json()` is caught by the FIRST matching `except`
  clause. Recent versions of the HTTP library raise a decode error that is
  also a request exception, so the caller sees `Translation error: ...`.
  Older versions raise a plain value error, which gives
  `JSON parsing error: ...`. The decode failure carries a flag saying which
  class was raised.
- The `or` chain picks any truthy value, not just a string. With
  `{"translatedText": 1}` the function returns the number `1`. The
  translated pane accepts only text, so the slot then raises and the pane
  keeps its old text. `Effect.slotRaised` records this.
- The original pane is editable. Typing into it also fires `on_text_changed`
  (`UserEdit`), which changes the pane without touching the snapshot.
- Emptying the clipboard clears the original pane, but the translated pane
  keeps the previous translation.

## Model

| member | source | states |
|---|---|---|
| PyJson.OrChain | clipboard_translator.py:44-50 | `a or b or ...` evaluates to one of its operands, and the result is truthy exactly when some operand is truthy |
| PyJson.OrChainFirstTruthy | clipboard_translator.py:44-50 | the `or` chain evaluates to its first truthy operand; later operands cannot override it |
| Translator.BuildRequest | clipboard_translator.py:25-32 | the request URL is the server URL followed by `/translate`; the payload is an object whose only key is `text`, holding the text; the timeout is 10 seconds |
| Translator.TranslateText | clipboard_translator.py:13-68 | one call sends a payload carrying the given text to `server_url/translate` and returns a truthy value, never raising for the two handled error classes |
| Translator.Interpret | clipboard_translator.py:41-59 | a decoded body gives a truthy reply: either the candidate picked from the body or the fixed failure text, and the candidate whenever it is truthy |
| Translator.Reply | clipboard_translator.py:20-68 | every outcome gives a truthy reply; a failed POST gives `Translation error: ` plus its message; a 4xx/5xx status gives `Translation error: ` plus the status message |
| Translator.FirstTruthyAliasWins | clipboard_translator.py:44-50 | for an object body under any status below 400 or from 600, the reply is the value of the first alias (in the fixed order) whose value is truthy |
| Translator.FalsyAliasesFail | clipboard_translator.py:44-57 | under any status below 400 or from 600, when every alias is missing, null or falsy, the reply is exactly `Translation failed: No translation in response` |
| Translator.BareStringReply | clipboard_translator.py:51-59 | under any status below 400 or from 600, a non-empty bare string body is returned unchanged; an empty one gives the failure text |
| Translator.OtherBodiesFail | clipboard_translator.py:41-57 | a body that is neither an object nor a string gives the failure text |
| Translator.ErrorStatusIgnoresBody | clipboard_translator.py:36-64 | with a 4xx/5xx status the reply does not depend on the body and is `Translation error: ` plus the status message |
| Translator.DecodeFailureReply | clipboard_translator.py:37-68 | an undecodable body gives `JSON parsing error: ` plus the message for a plain value error, and `Translation error: ` plus the message for a request-exception decode error |
| Translator.ReplyIsStringUnlessNonStringCandidate | clipboard_translator.py:41-59 | the reply is a string unless the body picked out a truthy non-string value, in both directions |
| Translator.NumericAliasReturnedAsIs | clipboard_translator.py:44-59 | `{"translatedText": 1}` is answered with the number 1, not a string |
| Translator.TranslatedTextExample | test_clipboard_qt.py:18-23 | `{"translated_text": "你好"}` for the text "hello" gives exactly "你好" from a request to `server_url/translate` |
| ClipboardApp.OnTextChanged | ClipboardQT.py:291-296 | an empty pane sends nothing and changes nothing; a non-empty pane sends exactly one request carrying its text to the configured server; a string reply is what the translated pane then shows, and the slot raises, leaving the state as it was, exactly when the reply is not a string |
| ClipboardApp.SetOriginal | ClipboardQT.py:160-163 | replacing the original pane's text dispatches a request for that text to the configured server exactly when it is non-empty, and the translated pane then shows the reply when it is a string and keeps its text otherwise |
| ClipboardApp.CheckClipboard | ClipboardQT.py:284-289 | after a poll the snapshot is the value read; an unchanged value changes nothing and sends nothing; a changed value is shown in the original pane, a request carrying it goes out exactly when it is non-empty, and a string reply is then shown in the translated pane |
| ClipboardApp.UserEdit | ClipboardQT.py:160-163 | typing into the original pane shows the text and dispatches a request carrying it, without touching the clipboard snapshot; the translated pane shows a string reply and keeps its text otherwise |
| ClipboardApp.RepeatedTickIsQuiet | ClipboardQT.py:284-289 | a second poll that reads the same value is a no-op, so two such polls update the display at most once |
| ClipboardApp.EmptyClipboardAtStartupIsQuiet | ClipboardQT.py:182-187 | with the initial snapshot `""`, a first poll that reads an empty clipboard changes nothing and sends nothing |
| ClipboardApp.ClearedClipboardKeepsStaleTranslation | ClipboardQT.py:287-296 | when the clipboard becomes empty, the original pane is cleared, no request is sent, and the translated pane keeps its old text |
| ClipboardApp.ChangedClipboardShowsReply | ClipboardQT.py:284-296 | a changed non-empty value with a string reply ends with the value as snapshot and original text and the reply as translated text, after one request built for that value |
| ClipboardApp.RunSnapshotIsLastRead | ClipboardQT.py:284-288 | after any run of polls the snapshot equals the value read on the last poll |
| ClipboardApp.RunSendsExactlyTheChanges | ClipboardQT.py:284-296 | a run of polls sends one request, in order, for each poll whose value is non-empty and differs from the value seen before it, and nothing else |
| ClipboardApp.RunKeepsOriginalAtSnapshot | ClipboardQT.py:284-289 | polls alone keep the original pane equal to the snapshot |
| ClipboardApp.RunNeverSendsEmpty | ClipboardQT.py:291-296 | no run of polls ever sends the empty text for translation |

## Left out

- Window construction, layout, theming, the custom title bar, maximising and dragging (ClipboardQT.py:70-180, 189-282): presentation only.
- The Windows dark-mode title-bar calls (ClipboardQT.py:19-67): foreign OS calls.
- `pyperclip.paste`, `requests.post`, the timer and logging: I/O. The clipboard value and the HTTP outcome are inputs. The timeout appears only as a field of the request.
- A clipboard read that raises: the code does not catch it, and the exception leaves the timer slot. The model's poll always receives a string.
- What happens after a slot raises: with PyQt5's default exception hook the process aborts, yet the model's `Run` keeps polling after a step with `slotRaised`. Its lemmas therefore describe what would follow only under a hook that lets the window continue; the model records the raise and keeps the state as it stands at that point.
- The text of the library's exception messages, including the status line `raise_for_status` builds: inputs, not computed.
- JSON `NaN` and `Infinity`, which Python's decoder accepts: numbers are reals, and truthiness is "non-zero".
- Qt's plain-text normalisation of pane contents: the panes store strings exactly. Qt turns `\r\n` into a single paragraph break, which `toPlainText()` reads back as `\n`, so a multi-line Windows clipboard value reaches the server changed. `RunSendsExactlyTheChanges` and `RunKeepsOriginalAtSnapshot` hold only under the exact-storage assumption.
- A health-check `ping`, asynchronous dispatch with stale-reply discarding, and swallowing clipboard read errors: none of these exist in the code, which is synchronous and has no ping.
- Settings persistence of the server URL: the code hard-wires the URL (ClipboardQT.py:181), and the model uses that constant.
- Translator.TranslateText: the code does not always return a string. A truthy non-string alias value is returned as it is, so the model promises a truthy value rather than a string (see `ReplyIsStringUnlessNonStringCandidate`).
