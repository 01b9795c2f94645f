# SciENcv Markdown formatter — a Dafny model

The formatter is a single page and a small Flask service. The page takes Markdown typed by the
user and posts it to `/sciencv/format`. It shows the returned HTML and offers a copy button
that tries three clipboard techniques in turn. The service splits the text into pieces at every
`\n\n`. It converts each non-blank paragraph with the `markdown` library, joins the
pieces, wraps them in a Word-friendly `div` and restyles the result.

This project models both halves and proves their behaviour:

- `strings.dfy` (module `Strings`): JavaScript `trim` and Python `strip()`, each with its own
  whitespace set. Also `includes` / `in`, Python `str.split(sep)` (left to right, no overlap)
  and `sep.join`.
- `app.dfy` (module `App`): the paragraph pipeline of `convert_markdown_to_word_html`. The
  `for` loop is a method proved against the function `WordHtml`. The decision of the `/format`
  endpoint is a function. The Markdown converter and `apply_word_formatting` are function
  parameters. The converter may raise.
- `script_model.dfy` (module `ScriptModel`): the page state as a value. Each handler of
  `static/script.js` is a transition whose contract states what the handler promises. Lemmas
  relate several transitions: invariants, the timers, copy after display.
- `script.dfy` (module `Script`): class `Page`, whose fields are the page's mutable state. Its
  methods make the script's updates step by step, with `try`/`catch`/`finally` written out as
  branches on the environment's outcome. Each method is specified as its `ScriptModel`
  transition from the old state.
- `exchange.dfy` (module `Exchange`): client and server together.

The environment is supplied as data:

- `fetch` plus `response.json()` is a `FetchOutcome`: `Thrown(message)` or
  `Json(error, html)`.
- Whether each clipboard tier throws is a `CopyEnv`.
- The DOM's `textContent` / `innerText` of an HTML string is a `Rendering`.
- What `request.get_json()` yields is a `Payload`, carrying the `str(e)` of any exception
  Python would raise.

The page behaviours the lemmas expose follow the code as written:

- A tier-2 or tier-3 clipboard fallback that throws leaves its temporary element in the body.
  It is removed only on the non-throwing path.
- Notification hide timers are never cancelled. An older timer hides a newer message early
  (`StaleHideHidesNewMessage`).
- A tier-1 success relabels the copy button. It does not show a notification. Two tier-1 copies
  within 2000 ms leave the button showing the copied label for good
  (`QuickSecondCopyKeepsCopiedLabel`).
- The client never reads the HTTP status. A 500 reply with a non-empty `error` takes the
  service-error branch. A 500 reply whose exception message is empty counts as success
  (`FormatRoundTrip`).
- JavaScript and Python disagree on what whitespace is. An input of U+001F is sent by the
  client but is blank to the server (`UnitSeparatorInput`).
- The script ignores the boolean `document.execCommand('copy')` returns. A tier-2 or tier-3 copy that the browser refuses (`false`) still shows its success message, and the clipboard keeps its old contents (`RefusedFallbackCopyReportsSuccess`).
- A copy is refused for any output containing the word `placeholder`, even real content
  (`MentionOfPlaceholderBlocksCopy`).
- The copy button's label is written in `static/script.js` as the three characters U+00E2
  U+0153 U+201C followed by " Copied!". This is a check mark saved in the wrong encoding. The
  model uses those exact characters.

## Model

| member | source | states |
|---|---|---|
| `Strings.Strip` | app.py:21 | the result is `s` minus all-space padding on both sides, starts and ends with a non-space, and is empty exactly when `s` is all whitespace |
| `Strings.SpanStart` | static/script.js:20 | the leading run of spaces found from `i` is all spaces and ends at a non-space or at the end of the text |
| `Strings.SpanEnd` | static/script.js:56 | the trailing run of spaces before `j` is all spaces and starts after a non-space or at the lower bound |
| `Strings.Contains` | static/script.js:68 | `content.includes(t)`: `t` occurs at some index of `content`; used by `CanCopy` |
| `Strings.Find` | app.py:16 | the search behind `split`: the result is an occurrence at or after `from` with none between `from` and it, or none exists at all |
| `Strings.Split` | app.py:16 | `split('\n\n')` yields at least one piece and no piece contains the separator |
| `Strings.SplitJoin` | app.py:16 | joining the split pieces with the separator gives back the text |
| `Strings.SplitLeftmost` | app.py:16 | every piece but the last ends at the leftmost occurrence of the separator (left-to-right, non-overlapping splitting) |
| `Strings.SplitExample` | app.py:16 | `"a\n\n\nb"` splits into `["a", "\nb"]` |
| `Strings.Join` | app.py:29 | Python `sep.join`; its shape is stated by `JoinShape`, and `SplitJoin` makes it the inverse of `Split` |
| `Strings.JoinShape` | app.py:29 | the join starts with the first piece, ends with the last, and its length is the pieces' total plus one separator per neighbouring pair, so no separator comes before the first piece or after the last |
| `App.Paragraphs` | app.py:19-26 | there is one converter input per non-blank piece, and none is empty |
| `App.ParagraphsInOrder` | app.py:20-25 | the k-th piece, if not blank, is stripped and given to the converter at position "number of non-blank pieces before it", so order is kept and blank pieces are the ones dropped |
| `App.ConvertAll` | app.py:20-26 | conversion succeeds exactly when every call returns HTML, with one HTML piece per paragraph, each the converter's output for that paragraph |
| `App.ConvertAllFailure` | app.py:23-25 | a failure carries the message of the first paragraph whose conversion raised, and every earlier one converted |
| `App.ConvertMarkdownToWordHtml` | app.py:9-41 | the loop returns exactly `WordHtml(text)`, or fails, as the Python function raises, with the first converter exception |
| `App.WordHtml` | app.py:9-41 | the reference value of `convert_markdown_to_word_html`: split at `'\n\n'`, convert the stripped non-blank pieces, join, wrap, restyle, or the first converter exception; its properties are stated by `WordHtmlShape`, `ConvertAll` and `ConvertAllFailure` |
| `App.WordHtmlShape` | app.py:16-41 | whenever the function returns, its value is `apply_word_formatting` applied once to the fixed wrapper around the converted paragraphs joined by `'\n\n'`, one per non-blank piece, in piece order |
| `App.RequestText` | app.py:97-98 | `data.get('text', '')` on the three kinds of payload: the text, `''` for a missing key, or the message of the exception raised by `get_json`, by `get` on a non-object, or by `strip` on a non-string; its consequences are stated by `App.FormatMarkdown` |
| `App.FormatMarkdown` | app.py:94-109 | a missing `text` counts as `''`; blank text gives `('', None, 200)`; non-blank text gives `(convert_markdown_to_word_html(text), None, 200)`; any exception gives `('', str(e), 500)`; status 500 exactly when `error` is set |
| `App.BlankSkipsConverter` | app.py:98-101 | a blank text's reply does not depend on the converter or the restyler |
| `ScriptModel.ShowError` | static/script.js:155-184 | the single error element shows the new text and is displayed, one more 5000 ms hide is pending after the earlier ones, and nothing else changes |
| `ScriptModel.ShowSuccess` | static/script.js:187-216 | the same for the success element with a 3000 ms hide |
| `ScriptModel.ShowLoading` | static/script.js:144-152 | the format button's display is `none` while loading shows and `flex` once it is hidden; nothing else changes |
| `ScriptModel.DisplayFormattedText` | static/script.js:55-62 | HTML that is non-blank after `trim` is assigned to `innerHTML` and the model reads back the assigned string (no parse/serialise round trip, see Left out), and the placeholder class is removed; otherwise the fixed "No content to display" paragraph is shown and the class is left alone |
| `ScriptModel.BeginRequest` | static/script.js:27-37 | while the request is out the button is hidden, the indicator shows, and one POST to `/sciencv/format` carrying the trimmed text is recorded |
| `ScriptModel.Settle` | static/script.js:39-48 | the `try`/`catch` on the outcome: a thrown error or a truthy `error` changes only the error element (new text, displayed, one more 5000 ms hide); otherwise the HTML is displayed and only the success element changes besides (new text, displayed, one more 3000 ms hide) |
| `ScriptModel.FormatMarkdown` | static/script.js:19-52 | blank input shows only "Please enter some Markdown text to format." with a new 5000 ms hide, no request and no other change; otherwise the trimmed text is sent, the button ends `flex` and loading hidden on every path, a truthy `error` keeps the output and shows "Error formatting text: " + error, a falsy one displays the HTML (clearing the placeholder class when it is non-blank) and shows "Text formatted successfully!", a thrown error keeps the output and shows "Network error: " + message; each message gets one more pending hide (5000 ms errors, 3000 ms success) |
| `ScriptModel.TiersTried` | static/script.js:73-138 | no tier when there is nothing to copy; otherwise a prefix of tiers 1, 2, 3, each later tier tried only because the previous threw, stopping at the first that does not throw |
| `ScriptModel.CanCopy` | static/script.js:68 | the guard of `copyToClipboard`: non-empty content that does not contain `placeholder`; its consequences are `DisplayedOutputCopyable`, `PlaceholderIsRefused` and `MentionOfPlaceholderBlocksCopy` |
| `ScriptModel.PlainTextOf` | static/script.js:76 | `textContent`, else `innerText`, else `''`: the text content when non-empty, otherwise the inner text, and empty exactly when both are |
| `ScriptModel.CopyToClipboard` | static/script.js:65-141 | empty output or output containing `placeholder` gives only "No formatted content to copy." with a new 5000 ms hide; tier 1 puts `innerHTML` as HTML with the `textContent`-or-`innerText` text on the clipboard, sets the copied label and schedules a 2000 ms restore of the old label, changing nothing else; when tier 1 throws the page becomes `FallbackCopy`'s |
| `ScriptModel.FallbackCopy` | static/script.js:98-139 | a tier 2 that does not throw shows "Content copied to clipboard!" with a new 3000 ms hide and leaves the body as it was, and the selected HTML is on the clipboard only when `execCommand` returned `true`; a tier 3 that does not throw shows the plain-text message, the thrown tier's div remains, and the text rendering is on the clipboard only when `execCommand` returned `true`; both throwing show the manual-copy error with a new 5000 ms hide and both temporaries remain; nothing else changes |
| `ScriptModel.RefusedFallbackCopyReportsSuccess` | static/script.js:117-123 | the ignored result of `execCommand('copy')`: a tier-2 copy that returns `false` still shows "Content copied to clipboard!" while the clipboard keeps its old contents |
| `ScriptModel.Truthy` | static/script.js:41 | definition of JavaScript truthiness for `if (data.error)`, with `null` and `''` falsy; its consequence, that a 500 reply with an empty message takes the success branch, is stated by `Exchange.FormatRoundTrip` and by the ensures of `ScriptModel.Settle` and `ScriptModel.FormatMarkdown` |
| `ScriptModel.Shortcuts` | static/script.js:219-231 | Ctrl/Meta+Enter fires format, Ctrl/Meta+Shift+`C` fires copy, and no event fires both |
| `ScriptModel.KeyDown` | static/script.js:218-231 | the listener runs exactly the shortcut's handler, or changes nothing |
| `ScriptModel.HideErrorFires` | static/script.js:181-183 | the oldest error timer hides the element whatever it shows now and is removed |
| `ScriptModel.HideSuccessFires` | static/script.js:213-215 | the oldest success timer hides the element and is removed |
| `ScriptModel.RestoreLabelFires` | static/script.js:92-96 | the oldest restore timer puts back the label it captured |
| `ScriptModel.FormatKeepsSettled` | static/script.js:28-51 | after any format the loading UI is idle again and every displayed message has a hide pending |
| `ScriptModel.CopyKeepsSettled` | static/script.js:65-141 | copying keeps the page settled |
| `ScriptModel.KeyDownKeepsSettled` | static/script.js:219-231 | every key event keeps the page settled |
| `ScriptModel.TimersKeepSettled` | static/script.js:92-215 | the three timer callbacks keep the page settled: the label restore (static/script.js:92-96), the error hide (181-183) and the success hide (213-215) |
| `ScriptModel.StaleHideHidesNewMessage` | static/script.js:177-183 | hide timers are never cancelled, so an older pending hide hides a newer error message while that message's own hide is still pending |
| `ScriptModel.QuickSecondCopyKeepsCopiedLabel` | static/script.js:87-96 | a second tier-1 copy before the first restore captures the copied label, so after both restores the button still shows it |
| `ScriptModel.DisplayedOutputCopyable` | static/script.js:55-71 | after displaying a reply, copy is refused exactly when the HTML is blank after `trim` or contains `placeholder` |
| `ScriptModel.PlaceholderIsRefused` | static/script.js:60-68 | the placeholder paragraph itself contains the marker `placeholder`, so it can never be copied |
| `ScriptModel.MentionOfPlaceholderBlocksCopy` | static/script.js:66-71 | any non-empty output containing the word `placeholder`, real content included, is refused with no tier attempted and the "No formatted content to copy." error |
| `ScriptModel.MentionOfPlaceholderExample` | static/script.js:66-71 | a witness: the real paragraph `<p>Use a placeholder here.</p>` is refused in that way |
| `Script.Page.constructor` | static/script.js:1-6 | the page starts in the given state with the given rendering |
| `Script.Page.ShowLoading` | static/script.js:144-152 | performs `ScriptModel.ShowLoading` on the fields |
| `Script.Page.ShowError` | static/script.js:155-184 | creates the error element on first use, then sets text, display and a new timer: `ScriptModel.ShowError` |
| `Script.Page.ShowSuccess` | static/script.js:187-216 | the same for the success element: `ScriptModel.ShowSuccess` |
| `Script.Page.DisplayFormattedText` | static/script.js:55-62 | performs `ScriptModel.DisplayFormattedText` |
| `Script.Page.FormatMarkdown` | static/script.js:19-52 | validate, `showLoading(true)`, send, then the try/catch branches and the `finally`: `ScriptModel.FormatMarkdown` |
| `Script.Page.CopyToClipboard` | static/script.js:65-141 | the three nested try blocks, appending and removing temporaries: `ScriptModel.CopyToClipboard`, and it returns the tiers tried (`ScriptModel.TiersTried`) |
| `Script.Page.FallbackCopy` | static/script.js:98-139 | the outer `catch`: appends the div, then `execCommand` throws or returns (writing the clipboard only when it returns `true`), removes the div only when it did not throw, then the same for the textarea: `ScriptModel.FallbackCopy`, returning the fallback tiers tried |
| `Script.Page.OnKeyDown` | static/script.js:219-231 | both `if`s of the listener in order: `ScriptModel.KeyDown`; `preventDefault` is called exactly when a shortcut fires |
| `Script.Page.HideErrorFires` | static/script.js:181-183 | performs `ScriptModel.HideErrorFires` |
| `Script.Page.HideSuccessFires` | static/script.js:213-215 | performs `ScriptModel.HideSuccessFires` |
| `Script.Page.RestoreLabelFires` | static/script.js:92-96 | performs `ScriptModel.RestoreLabelFires` |
| `Exchange.ClientOutcome` | static/script.js:39 | definition of what `response.json()` gives for a reply, its parsed body alone; that the status plays no part is stated by `Exchange.ClientIgnoresStatus`, and how the page then branches by `Exchange.FormatRoundTrip` |
| `Exchange.ClientIgnoresStatus` | static/script.js:39-41 | the client's outcome is the same whatever HTTP status the reply carries |
| `Exchange.ReplyTo` | static/script.js:31-37 | the body `{text: trimmed}` reaches the endpoint as an object with a string `text`, so the reply is `('', None, 200)` for text blank to `strip()`, the converted HTML with 200, or the converter's message with 500, and never one of the request's own exceptions |
| `Exchange.FormatRoundTrip` | app.py:109 | for accepted input, text the server finds blank shows the placeholder with success; converted HTML is displayed with success; a server exception yields a 500 that the client reports as "Error formatting text: " + message, or as success when the message is empty |
| `Exchange.UnitSeparatorInput` | app.py:100 | input U+001F passes the client's `trim`, is blank to the server's `strip()`, and ends with the placeholder and the success message |

## Left out

- Textarea auto-resizing (static/script.js:13-16) and seeding sample content on `DOMContentLoaded` (static/script.js:234-274) are presentational only.
- Notification CSS (static/script.js:161-173, 193-205) and the copy button's colours (static/script.js:89-90, 94-95) are not modelled. Only the label is.
- The regular-expression rewriting of `apply_word_formatting` (app.py:43-86) is the parameter `format`. Python `re` semantics are not modelled.
- The `markdown` library (app.py:2, 23-25) is the parameter `convert`. A fresh instance is made per paragraph, so it is a function of the paragraph text.
- Flask routing, `render_template`, `APPLICATION_ROOT` and `app.run` (app.py:6-8, 88-91, 111-112) are server plumbing. `Exchange` assumes the deployment in which the page's POST to `/sciencv/format` (static/script.js:31) reaches the route `/format` (app.py:93), for instance through a proxy that strips `/sciencv`; `APPLICATION_ROOT` does not prefix routes, so under `app.run` alone the POST gets Flask's 404 page, `response.json()` throws and the page shows "Network error: " plus the message.
- The `Blob`, `ClipboardItem`, `navigator.clipboard.write`, `execCommand`, Range and Selection calls are oracles: a per-tier "throws or not" flag, plus, for the two `execCommand` tiers, the boolean the call returns when it does not throw. The selection state itself (static/script.js:110-114, 120, 131) is not tracked.
- A tier that throws is taken to throw at its copy step, after its temporary element was appended. A throw before `appendChild` is not modelled.
- Asynchrony: each handler runs to completion as one step, so two format requests racing (last reply wins) are not modelled. Timers are pending lists per channel that fire oldest first. Which channel fires next is up to the caller. Real time is not modelled.
- The reply's `html` is a string in the model, as the service always sends one. A reply without `html` would throw in `html.trim()` and reach the "Network error: " branch. A non-string `error` is not modelled.
- Element identity: each notification channel is one slot that is created on first use. Pre-existing `.error-message` or `.success-message` markup is expressed through the initial state. `document.querySelector` (static/script.js:157, 189) would also find an element of that class inside the displayed output; the model's lookup ignores markup inside the output. Only the temporary children of the body are tracked.
- ScriptModel.DisplayFormattedText: `innerHTML` holds the assigned string itself. The browser parses the string on assignment (static/script.js:57) and serialises it when read (static/script.js:66); that round trip is not modelled. So a character reference such as `<p>&#112;laceholder</p>`, which reads back as `<p>placeholder</p>`, or markup the parser drops, such as `<head></head>`, which reads back as `""`, is copyable in the model but refused by the page. `CanCopy`, `DisplayedOutputCopyable` and `MentionOfPlaceholderBlocksCopy` are about the assigned string, not the browser's serialisation of it.
- The click listeners (static/script.js:9-10) call `formatMarkdown` and `copyToClipboard` directly. They are the methods `Script.Page.FormatMarkdown` and `Script.Page.CopyToClipboard`.
