/**
 * The back end of the formatter: `convert_markdown_to_word_html` (split the
 * text into paragraphs, convert each non-blank one, join, wrap, restyle) and
 * the decision of the `/format` endpoint.
 *
 * The Markdown converter and `apply_word_formatting` are parameters: the
 * converter is a fresh `markdown.Markdown` instance per paragraph, so it is a
 * function of the paragraph text, which may raise an exception.
 */
module App {
  import opened Wrappers
  import opened Strings

  /** What one call of the Markdown converter does: returns HTML or raises. */
  datatype Converted = Html(html: string) | Raises(message: string)

  const ParagraphBreak := "\n\n"

  /** The triple-quoted f-string around the joined HTML, split at `{html}`. */
  const WrapperOpen := "\n    <div style=\"font-family: Arial, sans-serif; font-size: 12pt; line-height: 1.15; margin: 0; padding: 0;\">\n        "
  const WrapperClose := "\n    </div>\n    "

  predicate IsBlank(p: string) { PyStrip(p) == "" }

  /** How many pieces are not blank: the reference count for the converted list. */
  function CountNonBlank(pieces: seq<string>): nat {
    if pieces == [] then 0
    else CountNonBlank(pieces[..|pieces| - 1]) + (if IsBlank(pieces[|pieces| - 1]) then 0 else 1)
  }

  /** The stripped text of each non-blank piece, in order: what the converter is given. */
  function Paragraphs(pieces: seq<string>): (r: seq<string>)
    ensures |r| == CountNonBlank(pieces)
    ensures forall j :: 0 <= j < |r| ==> r[j] != ""
  {
    if pieces == [] then []
    else
      var last := pieces[|pieces| - 1];
      var tail := if IsBlank(last) then [] else [PyStrip(last)];
      assert forall j :: 0 <= j < |tail| ==> tail[j] != "";
      Paragraphs(pieces[..|pieces| - 1]) + tail
  }

  /**
   * Converts each paragraph in order. It succeeds exactly when every call
   * returns HTML, with one HTML piece per paragraph; otherwise it fails with
   * the message of the first call that raised.
   */
  function ConvertAll(xs: seq<string>, convert: string -> Converted): (r: Result<seq<string>, string>)
    ensures r.Success? <==> forall i :: 0 <= i < |xs| ==> convert(xs[i]).Html?
    ensures r.Success? ==> |r.value| == |xs|
    ensures r.Success? ==> forall i :: 0 <= i < |xs| ==> convert(xs[i]) == Html(r.value[i])
  {
    if xs == [] then Success([])
    else
      var init := xs[..|xs| - 1];
      match ConvertAll(init, convert)
      case Failure(m) => Failure(m)
      case Success(hs) =>
        match convert(xs[|xs| - 1])
        case Raises(m) => Failure(m)
        case Html(h) => Success(hs + [h])
  }

  /** A failure carries the message of the first paragraph whose conversion raised. */
  lemma {:induction false} ConvertAllFailure(xs: seq<string>, convert: string -> Converted) returns (i: nat)
    requires ConvertAll(xs, convert).Failure?
    ensures i < |xs| && convert(xs[i]) == Raises(ConvertAll(xs, convert).error)
    ensures forall j :: 0 <= j < i ==> convert(xs[j]).Html?
  {
    var init := xs[..|xs| - 1];
    if ConvertAll(init, convert).Failure? {
      i := ConvertAllFailure(init, convert);
    } else {
      i := |xs| - 1;
    }
  }

  /** The value `convert_markdown_to_word_html` returns, or the exception it raises. */
  function WordHtml(text: string, convert: string -> Converted, format: string -> string): Result<string, string> {
    match ConvertAll(Paragraphs(Split(text, ParagraphBreak)), convert)
    case Failure(m) => Failure(m)
    case Success(hs) => Success(format(WrapperOpen + Join(hs, ParagraphBreak) + WrapperClose))
  }

  /** The loop of `convert_markdown_to_word_html`, appending to the processed list. */
  method ConvertMarkdownToWordHtml(text: string, convert: string -> Converted, format: string -> string)
    returns (r: Result<string, string>)
    ensures r == WordHtml(text, convert, format)
  {
    var paragraphs := Split(text, ParagraphBreak);
    var processed: seq<string> := [];
    for i := 0 to |paragraphs|
      invariant ConvertAll(Paragraphs(paragraphs[..i]), convert) == Success(processed)
    {
      var paragraph := paragraphs[i];
      ParagraphsStep(paragraphs, i);
      if PyStrip(paragraph) != "" {
        var c := convert(PyStrip(paragraph));
        match c
        case Raises(m) =>
          ConvertAllRaises(Paragraphs(paragraphs[..i]), processed, PyStrip(paragraph), m, convert);
          PrefixFailure(paragraphs, i + 1, convert);
          return Failure(m);
        case Html(h) =>
          ConvertAllConverts(Paragraphs(paragraphs[..i]), processed, PyStrip(paragraph), h, convert);
          processed := processed + [h];
      }
    }
    assert paragraphs[..|paragraphs|] == paragraphs;
    var html := Join(processed, ParagraphBreak);
    var wordCompatibleHtml := WrapperOpen + html + WrapperClose;
    wordCompatibleHtml := format(wordCompatibleHtml);
    return Success(wordCompatibleHtml);
  }

  lemma ParagraphsStep(ps: seq<string>, i: nat)
    requires i < |ps|
    ensures IsBlank(ps[i]) ==> Paragraphs(ps[..i + 1]) == Paragraphs(ps[..i])
    ensures !IsBlank(ps[i]) ==> Paragraphs(ps[..i + 1]) == Paragraphs(ps[..i]) + [PyStrip(ps[i])]
  {
    assert ps[..i + 1][..i] == ps[..i];
    assert Paragraphs(ps[..i]) + [] == Paragraphs(ps[..i]);
  }

  lemma ConvertAllConverts(xs: seq<string>, hs: seq<string>, x: string, h: string, convert: string -> Converted)
    requires ConvertAll(xs, convert) == Success(hs) && convert(x) == Html(h)
    ensures ConvertAll(xs + [x], convert) == Success(hs + [h])
  {
    assert (xs + [x])[..|xs + [x]| - 1] == xs;
  }

  lemma ConvertAllRaises(xs: seq<string>, hs: seq<string>, x: string, m: string, convert: string -> Converted)
    requires ConvertAll(xs, convert) == Success(hs) && convert(x) == Raises(m)
    ensures ConvertAll(xs + [x], convert) == Failure(m)
  {
    assert (xs + [x])[..|xs + [x]| - 1] == xs;
  }

  lemma {:induction false} ParagraphsAppend(a: seq<string>, b: seq<string>)
    ensures Paragraphs(a + b) == Paragraphs(a) + Paragraphs(b)
    decreases |b|
  {
    if b != [] {
      var b' := b[..|b| - 1];
      assert (a + b)[..|a + b| - 1] == a + b';
      ParagraphsAppend(a, b');
    } else {
      assert a + b == a;
    }
  }

  lemma {:induction false} ConvertAllAppend(xs: seq<string>, ys: seq<string>, convert: string -> Converted)
    requires ConvertAll(xs, convert).Failure?
    ensures ConvertAll(xs + ys, convert) == ConvertAll(xs, convert)
    decreases |ys|
  {
    if ys != [] {
      var ys' := ys[..|ys| - 1];
      assert (xs + ys)[..|xs + ys| - 1] == xs + ys';
      ConvertAllAppend(xs, ys', convert);
    } else {
      assert xs + ys == xs;
    }
  }

  /** A failure on the paragraphs of a prefix is the failure on the whole text. */
  lemma PrefixFailure(pieces: seq<string>, n: nat, convert: string -> Converted)
    requires n <= |pieces| && ConvertAll(Paragraphs(pieces[..n]), convert).Failure?
    ensures ConvertAll(Paragraphs(pieces), convert) == ConvertAll(Paragraphs(pieces[..n]), convert)
  {
    assert pieces == pieces[..n] + pieces[n..];
    ParagraphsAppend(pieces[..n], pieces[n..]);
    ConvertAllAppend(Paragraphs(pieces[..n]), Paragraphs(pieces[n..]), convert);
  }

  lemma {:induction false} CountNonBlankBelow(pieces: seq<string>, k: nat)
    requires k < |pieces| && !IsBlank(pieces[k])
    ensures CountNonBlank(pieces[..k]) < CountNonBlank(pieces)
    decreases |pieces|
  {
    var init := pieces[..|pieces| - 1];
    if k < |pieces| - 1 {
      assert init[..k] == pieces[..k];
      CountNonBlankBelow(init, k);
    } else {
      assert init == pieces[..k];
    }
  }

  /**
   * The converter sees exactly the stripped non-blank pieces, in order: the
   * k-th piece, when it is not blank, is the paragraph whose position is the
   * number of non-blank pieces before it.
   */
  lemma {:induction false} ParagraphsInOrder(pieces: seq<string>, k: nat)
    requires k < |pieces| && !IsBlank(pieces[k])
    ensures CountNonBlank(pieces[..k]) < |Paragraphs(pieces)|
    ensures Paragraphs(pieces)[CountNonBlank(pieces[..k])] == PyStrip(pieces[k])
    decreases |pieces|
  {
    CountNonBlankBelow(pieces, k);
    var init := pieces[..|pieces| - 1];
    if k < |pieces| - 1 {
      assert init[..k] == pieces[..k];
      ParagraphsInOrder(init, k);
    } else {
      assert init == pieces[..k];
    }
  }

  /**
   * When `convert_markdown_to_word_html` returns, its value is `format`
   * applied once to the fixed wrapper around the converted paragraphs joined
   * by `'\n\n'`, one converted paragraph per non-blank piece of the split, in
   * the order of the pieces.
   */
  lemma WordHtmlShape(text: string, convert: string -> Converted, format: string -> string)
    returns (hs: seq<string>)
    requires WordHtml(text, convert, format).Success?
    ensures WordHtml(text, convert, format) == Success(format(WrapperOpen + Join(hs, ParagraphBreak) + WrapperClose))
    ensures |hs| == CountNonBlank(Split(text, ParagraphBreak))
    ensures var pieces := Split(text, ParagraphBreak);
            forall k :: 0 <= k < |pieces| && !IsBlank(pieces[k]) ==>
              CountNonBlank(pieces[..k]) < |hs| && convert(PyStrip(pieces[k])) == Html(hs[CountNonBlank(pieces[..k])])
  {
    var pieces := Split(text, ParagraphBreak);
    var ps := Paragraphs(pieces);
    var c := ConvertAll(ps, convert);
    hs := c.value;
    forall k | 0 <= k < |pieces| && !IsBlank(pieces[k])
      ensures CountNonBlank(pieces[..k]) < |hs| && convert(PyStrip(pieces[k])) == Html(hs[CountNonBlank(pieces[..k])])
    {
      ParagraphsInOrder(pieces, k);
      assert convert(ps[CountNonBlank(pieces[..k])]) == Html(hs[CountNonBlank(pieces[..k])]);
    }
  }

  /** A field of the JSON object: a string, or something without a `strip` method. */
  datatype Field = Str(s: string) | NonString(message: string)

  /**
   * What `request.get_json()` yields: it raises (wrong content type, bad
   * JSON); or a value without `get` (null, a list, a number); or an object.
   * The messages are the `str(e)` of the exception Python raises.
   */
  datatype Payload = GetJsonRaises(message: string) | NotADict(message: string) | Dict(text: Option<Field>)

  /** A JSON reply: `html`, `error` (null when None), and the HTTP status. */
  datatype Response = Response(html: string, error: Option<string>, status: nat)

  /** `data.get('text', '')`, or the exception raised on the way to `strip()`. */
  function RequestText(p: Payload): Result<string, string> {
    match p
    case GetJsonRaises(m) => Failure(m)
    case NotADict(m) => Failure(m)
    case Dict(None) => Success("")
    case Dict(Some(Str(t))) => Success(t)
    case Dict(Some(NonString(m))) => Failure(m)
  }

  /** The `/format` endpoint. */
  function FormatMarkdown(p: Payload, convert: string -> Converted, format: string -> string): (r: Response)
    ensures r.status == 200 || r.status == 500
    ensures r.status == 500 <==> r.error.Some?
    ensures r.status == 500 ==> r.html == ""
    ensures p == Dict(None) ==> r == Response("", None, 200)
    ensures RequestText(p).Success? && IsBlank(RequestText(p).value) ==> r == Response("", None, 200)
    ensures RequestText(p).Failure? ==> r == Response("", Some(RequestText(p).error), 500)
    ensures RequestText(p).Success? && !IsBlank(RequestText(p).value) ==>
              match WordHtml(RequestText(p).value, convert, format)
              case Success(h) => r == Response(h, None, 200)
              case Failure(m) => r == Response("", Some(m), 500)
  {
    match RequestText(p)
    case Failure(m) => Response("", Some(m), 500)
    case Success(text) =>
      if PyStrip(text) == "" then Response("", None, 200)
      else
        match WordHtml(text, convert, format)
        case Failure(m) => Response("", Some(m), 500)
        case Success(h) => Response(h, None, 200)
  }

  /** A blank text is answered without calling the converter or the restyler. */
  lemma BlankSkipsConverter(p: Payload, c1: string -> Converted, f1: string -> string,
                            c2: string -> Converted, f2: string -> string)
    requires RequestText(p).Success? && IsBlank(RequestText(p).value)
    ensures FormatMarkdown(p, c1, f1) == FormatMarkdown(p, c2, f2) == Response("", None, 200)
  {
  }
}
