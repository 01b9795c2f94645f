/**
 * The client and the server together: the client posts its trimmed input as
 * `{"text": ...}` and reads the reply's JSON body whatever the HTTP status.
 */
module Exchange {
  import opened Wrappers
  import opened Strings
  import App
  import M = ScriptModel

  /** What `response.json()` gives the client for a reply: the body alone. */
  function ClientOutcome(reply: App.Response): M.FetchOutcome {
    M.Json(reply.error, reply.html)
  }

  /** The client's outcome is the same whatever status the reply carries. */
  lemma ClientIgnoresStatus(reply: App.Response, status: nat)
    ensures ClientOutcome(reply.(status := status)) == ClientOutcome(reply)
  {
  }

  /**
   * The server's answer to the request the client sends for `s`. The body is
   * always an object with a string `text`, so none of the request's own
   * exceptions can occur: a 500 comes only from the conversion.
   */
  function ReplyTo(s: M.PageState, convert: string -> App.Converted, format: string -> string): (r: App.Response)
    ensures App.IsBlank(JsTrim(s.input)) ==> r == App.Response("", None, 200)
    ensures !App.IsBlank(JsTrim(s.input)) ==>
              match App.WordHtml(JsTrim(s.input), convert, format)
              case Success(h) => r == App.Response(h, None, 200)
              case Failure(m) => r == App.Response("", Some(m), 500)
  {
    assert App.RequestText(App.Dict(Some(App.Str(JsTrim(s.input))))) == Success(JsTrim(s.input));
    App.FormatMarkdown(App.Dict(Some(App.Str(JsTrim(s.input)))), convert, format)
  }

  /**
   * One format request from end to end, for input the client accepts.
   * - Text the server finds blank: the placeholder is shown, with the
   *   success message.
   * - Converted text: it is displayed with the success message.
   * - A server exception with a message: a 500 reply, the output is kept
   *   and "Error formatting text: " + the message is shown.
   * - A server exception whose message is empty: also a 500 reply, yet the
   *   client takes it for success, since it never checks the status and an
   *   empty error is falsy.
   */
  lemma FormatRoundTrip(s: M.PageState, convert: string -> App.Converted, format: string -> string)
    requires JsTrim(s.input) != ""
    ensures var t := JsTrim(s.input);
            var reply := ReplyTo(s, convert, format);
            var r := M.FormatMarkdown(s, ClientOutcome(reply));
            && (App.IsBlank(t) ==> r.output == M.PlaceholderHtml && r.successBox.value.text == M.FormattedMessage)
            && (!App.IsBlank(t) && App.WordHtml(t, convert, format).Success? ==>
                  var h := App.WordHtml(t, convert, format).value;
                  && reply == App.Response(h, None, 200)
                  && r.output == (if JsTrim(h) != "" then h else M.PlaceholderHtml)
                  && r.successBox.value.text == M.FormattedMessage)
            && (!App.IsBlank(t) && App.WordHtml(t, convert, format).Failure? ==>
                  var m := App.WordHtml(t, convert, format).error;
                  && reply.status == 500
                  && (m != "" ==> r.output == s.output && r.errorBox.value.text == M.ServiceErrorPrefix + m)
                  && (m == "" ==> r.output == M.PlaceholderHtml && r.successBox.value.text == M.FormattedMessage))
  {
    var t := JsTrim(s.input);
    assert App.RequestText(App.Dict(Some(App.Str(t)))) == Success(t);
    assert JsTrim("") == "" by { assert AllSpace("", JsWhitespace); }
  }

  /**
   * The two trims disagree on U+001F: the client sends it (it is not
   * whitespace in JavaScript), the server strips it to nothing (it is in
   * Python), and the page shows the placeholder with the success message.
   */
  lemma UnitSeparatorInput(s: M.PageState, convert: string -> App.Converted, format: string -> string)
    requires s.input == "\U{1F}"
    ensures JsTrim(s.input) == s.input && App.IsBlank(s.input)
    ensures ReplyTo(s, convert, format) == App.Response("", None, 200)
    ensures var r := M.FormatMarkdown(s, ClientOutcome(ReplyTo(s, convert, format)));
            && r.requests == s.requests + [M.FetchRequest(M.FormatUrl, "\U{1F}")]
            && r.output == M.PlaceholderHtml && r.successBox.value.text == M.FormattedMessage
  {
    assert !IsJsSpace(s.input[0]);
    assert !AllSpace(s.input, JsWhitespace);
    assert AllSpace(s.input, PyWhitespace);
    var j := JsTrim(s.input);
    assert |j| == 1 && j[0] == s.input[0];
    FormatRoundTrip(s, convert, format);
  }
}
