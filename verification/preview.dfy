/** The two preview documents handed to the sandboxed iframe as `srcDoc`:
    the editor's (markup stripped of its page skeleton) and the lesson
    view's (markup verbatim, React loaded in the head). Both are one
    template with the style buffer inside `<style>` in the head, the markup
    in the body and the script buffer in a trailing `<script>`. */
module Preview {
  import opened Buffers
  import Skeleton

  /** The template text before the style buffer, up to and without `<style>`. */
  const HeadPrefix := "\n      <!DOCTYPE html>\n      <html lang=\"en\">\n      <head>\n" +
                      "        <meta charset=\"UTF-8\">\n" +
                      "        <meta name=\"viewport\" content=\"width=device-width, initial-scale=1.0\">\n" +
                      "        <title>Preview</title>\n        "
  /** From the end of the head to the markup. */
  const BodyOpen := "\n      </head>\n      <body>\n        "
  /** From the markup to the script element. */
  const ScriptIndent := "\n        "
  /** The template text after `</script>`. */
  const DocumentEnd := "\n      </body>\n      </html>\n    "

  const ReactUmd := "https://unpkg.com/react@18/umd/react.development.js"
  const ReactDomUmd := "https://unpkg.com/react-dom@18/umd/react-dom.development.js"
  /** The two script tags the lesson preview adds to the head. */
  const ReactScripts := "\n        <script src=\"" + ReactUmd + "\"></script>" +
                        "\n        <script src=\"" + ReactDomUmd + "\"></script>"

  /** The style element of the head. */
  function StyleElement(css: string): string {
    "<style>" + css + "</style>"
  }

  /** The script element closing the body. */
  function ScriptElement(js: string): string {
    "<script>" + js + "</script>"
  }

  /** The template with its fixed texts as parameters: `head` before the
      style element, `mid` between it and the markup, `indent` between the
      markup and the script element, `tail` after it. */
  function Fill(head: string, css: string, mid: string, body: string,
                indent: string, js: string, tail: string): string {
    head + StyleElement(css) + mid + body + indent + ScriptElement(js) + tail
  }

  /** The text between the style element and the markup in the lesson
      preview: the two React script tags, then the end of the head. */
  const LessonMid := ReactScripts + BodyOpen

  /** The editor's preview: the markup without its page skeleton. */
  function EditorPreview(b: Buffers): string {
    Fill(HeadPrefix, b.css, BodyOpen, Skeleton.Strip(b.html), ScriptIndent, b.javascript, DocumentEnd)
  }

  /** The lesson view's preview: the markup as it is, React in the head. */
  function LessonPreview(b: Buffers): string {
    Fill(HeadPrefix, b.css, LessonMid, b.html, ScriptIndent, b.javascript, DocumentEnd)
  }

  /** The style element holds the style text verbatim between its tags. */
  lemma StyleElementLayout(css: string)
    ensures var e := StyleElement(css);
      |e| == |css| + 15 && e[..7] == "<style>" && e[7..7 + |css|] == css && e[7 + |css|..] == "</style>"
  {
  }

  /** The script element holds the script text verbatim between its tags. */
  lemma ScriptElementLayout(js: string)
    ensures var e := ScriptElement(js);
      |e| == |js| + 17 && e[..8] == "<script>" && e[8..8 + |js|] == js && e[8 + |js|..] == "</script>"
  {
  }

  /** The template opens with the head text and the style element. */
  lemma FillStylePart(head: string, css: string, mid: string, body: string,
                      indent: string, js: string, tail: string)
    ensures var r := Fill(head, css, mid, body, indent, js, tail);
      && r[..|head|] == head
      && r[|head|..|head| + |css| + 15] == StyleElement(css)
  {
    var r := Fill(head, css, mid, body, indent, js, tail);
    var p := head + StyleElement(css);
    assert r == p + (mid + body + indent + ScriptElement(js) + tail);
    assert r[..|p|] == p;
  }

  /** After the style element come the fixed text `mid` and the body. */
  lemma FillBodyPart(head: string, css: string, mid: string, body: string,
                     indent: string, js: string, tail: string)
    ensures var r := Fill(head, css, mid, body, indent, js, tail);
      var at := |head| + |css| + 15 + |mid|;
      && r[at - |mid|..at] == mid
      && r[at..at + |body|] == body
  {
    var r := Fill(head, css, mid, body, indent, js, tail);
    var p := head + StyleElement(css) + mid;
    assert r == p + body + (indent + ScriptElement(js) + tail);
    assert r[..|p|] == p;
  }

  /** The template closes with the script element and the tail text. */
  lemma FillScriptPart(head: string, css: string, mid: string, body: string,
                       indent: string, js: string, tail: string)
    ensures var r := Fill(head, css, mid, body, indent, js, tail);
      var e := |r| - |tail|;
      && |r| == |head| + |css| + 15 + |mid| + |body| + |indent| + |js| + 17 + |tail|
      && r[e - |js| - 17..e] == ScriptElement(js)
      && r[e..] == tail
  {
    var r := Fill(head, css, mid, body, indent, js, tail);
    var p := head + StyleElement(css) + mid + body + indent;
    assert r == p + ScriptElement(js) + tail;
  }

  /** Every part of the template at its place: the head text, the style
      element holding the style text, the fixed text `mid`, the body, and,
      counting from the end, the script element holding the script text
      followed by the tail text. */
  lemma FillLayout(head: string, css: string, mid: string, body: string,
                   indent: string, js: string, tail: string)
    ensures var r := Fill(head, css, mid, body, indent, js, tail);
      var at := |head| + |css| + 15 + |mid|;
      var e := |r| - |tail|;
      && r[..|head|] == head
      && r[|head|..|head| + 7] == "<style>"
      && r[|head| + 7..|head| + 7 + |css|] == css
      && r[|head| + 7 + |css|..|head| + |css| + 15] == "</style>"
      && r[at - |mid|..at] == mid
      && r[at..at + |body|] == body
      && r[e - |js| - 17..e - |js| - 9] == "<script>"
      && r[e - |js| - 9..e - 9] == js
      && r[e - 9..e] == "</script>"
      && r[e..] == tail
  {
    var r := Fill(head, css, mid, body, indent, js, tail);
    FillStylePart(head, css, mid, body, indent, js, tail);
    FillBodyPart(head, css, mid, body, indent, js, tail);
    FillScriptPart(head, css, mid, body, indent, js, tail);
    StyleElementLayout(css);
    ScriptElementLayout(js);
    var h := |head|;
    var e := |r| - |tail|;
    assert r[h..h + 7] == r[h..h + |css| + 15][..7];
    assert r[h + 7..h + 7 + |css|] == r[h..h + |css| + 15][7..7 + |css|];
    assert r[h + 7 + |css|..h + |css| + 15] == r[h..h + |css| + 15][7 + |css|..];
    assert r[e - |js| - 17..e - |js| - 9] == r[e - |js| - 17..e][..8];
    assert r[e - |js| - 9..e - 9] == r[e - |js| - 17..e][8..8 + |js|];
    assert r[e - 9..e] == r[e - |js| - 17..e][8 + |js|..];
  }

  /** Equal style elements hold equal style texts. */
  lemma StyleElementInjective(c1: string, c2: string)
    requires StyleElement(c1) == StyleElement(c2)
    ensures c1 == c2
  {
    StyleElementLayout(c1);
    StyleElementLayout(c2);
  }

  /** Equal script elements hold equal script texts. */
  lemma ScriptElementInjective(j1: string, j2: string)
    requires ScriptElement(j1) == ScriptElement(j2)
    ensures j1 == j2
  {
    ScriptElementLayout(j1);
    ScriptElementLayout(j2);
  }

  /** With the lengths of the style and script texts fixed, the filled
      template determines all three texts it embeds. */
  lemma FillDeterminesParts(head: string, mid: string, indent: string, tail: string,
                            c1: string, b1: string, j1: string,
                            c2: string, b2: string, j2: string)
    requires |c1| == |c2| && |j1| == |j2|
    ensures Fill(head, c1, mid, b1, indent, j1, tail) == Fill(head, c2, mid, b2, indent, j2, tail)
        <==> c1 == c2 && b1 == b2 && j1 == j2
  {
    if Fill(head, c1, mid, b1, indent, j1, tail) == Fill(head, c2, mid, b2, indent, j2, tail) {
      FillStylePart(head, c1, mid, b1, indent, j1, tail);
      FillStylePart(head, c2, mid, b2, indent, j2, tail);
      StyleElementInjective(c1, c2);
      FillScriptPart(head, c1, mid, b1, indent, j1, tail);
      FillScriptPart(head, c2, mid, b2, indent, j2, tail);
      ScriptElementInjective(j1, j2);
      FillBodyPart(head, c1, mid, b1, indent, j1, tail);
      FillBodyPart(head, c2, mid, b2, indent, j2, tail);
    }
  }

  /** Empty style and script texts still give an empty `<style></style>` and
      an empty `<script></script>`: the elements are never left out. */
  lemma FillKeepsEmptyElements(head: string, mid: string, body: string, indent: string, tail: string)
    ensures var r := Fill(head, "", mid, body, indent, "", tail);
      && r[|head|..|head| + 15] == "<style></style>"
      && r[|r| - |tail| - 17..|r| - |tail|] == "<script></script>"
  {
    FillStylePart(head, "", mid, body, indent, "", tail);
    FillScriptPart(head, "", mid, body, indent, "", tail);
    assert StyleElement("") == "<style></style>";
    assert ScriptElement("") == "<script></script>";
  }

  /** Where the style element starts in both previews. */
  const StyleAt := |HeadPrefix|

  /** The editor preview carries the style buffer verbatim in the style
      element of the head, and its body opens with the markup stripped of
      its page skeleton right after the end of the head. */
  lemma EditorPreviewParts(b: Buffers)
    ensures var r := EditorPreview(b);
      var m := Skeleton.Strip(b.html);
      var at := StyleAt + |b.css| + 15 + |BodyOpen|;
      && r[StyleAt..StyleAt + |b.css| + 15] == StyleElement(b.css)
      && r[at - |BodyOpen|..at] == BodyOpen
      && r[at..at + |m|] == m
  {
    FillStylePart(HeadPrefix, b.css, BodyOpen, Skeleton.Strip(b.html), ScriptIndent, b.javascript, DocumentEnd);
    FillBodyPart(HeadPrefix, b.css, BodyOpen, Skeleton.Strip(b.html), ScriptIndent, b.javascript, DocumentEnd);
  }

  /** The lesson preview carries the style buffer verbatim in the style
      element, always loads React and ReactDOM in the head after it, and its
      body holds the markup verbatim, unstripped. */
  lemma LessonPreviewParts(b: Buffers)
    ensures var r := LessonPreview(b);
      var at := StyleAt + |b.css| + 15 + |LessonMid|;
      && r[StyleAt..StyleAt + |b.css| + 15] == StyleElement(b.css)
      && r[at - |LessonMid|..at] == LessonMid
      && r[at..at + |b.html|] == b.html
  {
    FillStylePart(HeadPrefix, b.css, LessonMid, b.html, ScriptIndent, b.javascript, DocumentEnd);
    FillBodyPart(HeadPrefix, b.css, LessonMid, b.html, ScriptIndent, b.javascript, DocumentEnd);
  }

  /** Both previews end with the script buffer verbatim in the script
      element, followed only by the fixed end of the document. */
  lemma PreviewsEndWithScript(b: Buffers)
    ensures var r := EditorPreview(b);
      var e := |r| - |DocumentEnd|;
      r[e - |b.javascript| - 17..e] == ScriptElement(b.javascript) && r[e..] == DocumentEnd
    ensures var r := LessonPreview(b);
      var e := |r| - |DocumentEnd|;
      r[e - |b.javascript| - 17..e] == ScriptElement(b.javascript) && r[e..] == DocumentEnd
  {
    FillScriptPart(HeadPrefix, b.css, BodyOpen, Skeleton.Strip(b.html), ScriptIndent, b.javascript, DocumentEnd);
    FillScriptPart(HeadPrefix, b.css, LessonMid, b.html, ScriptIndent, b.javascript, DocumentEnd);
  }

  /** In both previews, empty style and script buffers give an empty
      `<style></style>` and an empty `<script></script>`. */
  lemma EmptyBuffersKeepElements(b: Buffers)
    requires b.css == "" && b.javascript == ""
    ensures var r := EditorPreview(b);
      && r[|HeadPrefix|..|HeadPrefix| + 15] == "<style></style>"
      && r[|r| - |DocumentEnd| - 17..|r| - |DocumentEnd|] == "<script></script>"
    ensures var r := LessonPreview(b);
      && r[|HeadPrefix|..|HeadPrefix| + 15] == "<style></style>"
      && r[|r| - |DocumentEnd| - 17..|r| - |DocumentEnd|] == "<script></script>"
  {
    FillKeepsEmptyElements(HeadPrefix, BodyOpen, Skeleton.Strip(b.html), ScriptIndent, DocumentEnd);
    FillKeepsEmptyElements(HeadPrefix, LessonMid, b.html, ScriptIndent, DocumentEnd);
  }

  /** Two buffer sets whose style and script texts have the same lengths give
      the same editor preview exactly when their style and script texts are
      equal and their markups strip to the same text. */
  lemma EditorPreviewDeterminesBuffers(b1: Buffers, b2: Buffers)
    requires |b1.css| == |b2.css| && |b1.javascript| == |b2.javascript|
    ensures EditorPreview(b1) == EditorPreview(b2)
        <==> b1.css == b2.css && b1.javascript == b2.javascript &&
             Skeleton.Strip(b1.html) == Skeleton.Strip(b2.html)
  {
    FillDeterminesParts(HeadPrefix, BodyOpen, ScriptIndent, DocumentEnd,
                        b1.css, Skeleton.Strip(b1.html), b1.javascript,
                        b2.css, Skeleton.Strip(b2.html), b2.javascript);
  }

  /** The lesson preview hides nothing: with the lengths of the style and
      script texts fixed, equal previews mean equal buffer sets. */
  lemma LessonPreviewDeterminesBuffers(b1: Buffers, b2: Buffers)
    requires |b1.css| == |b2.css| && |b1.javascript| == |b2.javascript|
    ensures LessonPreview(b1) == LessonPreview(b2) <==> b1 == b2
  {
    FillDeterminesParts(HeadPrefix, LessonMid, ScriptIndent, DocumentEnd,
                        b1.css, b1.html, b1.javascript, b2.css, b2.html, b2.javascript);
  }

  /** A markup that is a full page (document type, `<html…>`, the whole
      head, then the body content) previews in the editor exactly as its
      body content does with the line breaks between those tags in front. */
  lemma EditorPreviewIgnoresSkeleton(decl: string, sep1: string, attrs: string, sep2: string,
                                     headAttrs: string, headInner: string, content: string,
                                     css: string, js: string)
    requires '>' !in decl && '>' !in attrs && '>' !in headAttrs
    requires '<' !in sep1 && '<' !in sep2
    requires !Skeleton.ContainsCI(headInner, "</head>")
    ensures EditorPreview(Buffers("<!DOCTYPE" + decl + ">" + (sep1 + ("<html" + attrs + ">" + (sep2 +
                          ("<head" + headAttrs + ">" + headInner + "</head>" + content)))), css, js))
         == EditorPreview(Buffers(sep1 + (sep2 + content), css, js))
  {
    Skeleton.StripRemovesSkeleton(decl, sep1, attrs, sep2, headAttrs, headInner, content);
  }
}
