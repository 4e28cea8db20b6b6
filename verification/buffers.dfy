/** The set of three source buffers both the editor and the lesson view
    keep as component state (`code`). */
module Buffers {

  /** The three buffer roles: the closed form of the `html`, `css` and
      `javascript` keys of the `code` record. */
  datatype BufferKind = Html | Css | JavaScript

  datatype Buffers = Buffers(html: string, css: string, javascript: string)
  {
    /** The text of one buffer (`code[kind]`). */
    function Get(kind: BufferKind): string {
      match kind
      case Html => html
      case Css => css
      case JavaScript => javascript
    }

    /** `{ ...prev, [kind]: value }`: one buffer replaced as a whole, the
        other two kept. */
    function With(kind: BufferKind, value: string): (r: Buffers)
      ensures r.Get(kind) == value
      ensures forall other :: other != kind ==> r.Get(other) == Get(other)
    {
      match kind
      case Html => this.(html := value)
      case Css => this.(css := value)
      case JavaScript => this.(javascript := value)
    }
  }

  /** `{ html: '', css: '', javascript: '' }`. */
  const Empty := Buffers("", "", "")
}
