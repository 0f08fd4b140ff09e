/** The text lines that the message area stores (module `line` of the
    terminal UI, whose implementation is not part of this model). Only what
    the message area relies on is modelled: a line is built by appending
    styled text, and the renderer can tell how many terminal rows a line
    takes at a given width. */
module Lines {

  /** A reference to a display style; what a style contains does not matter
      to the message area. */
  type StyleRef

  /** One piece of text added to a line, with the style it was added in. */
  datatype Fragment = Fragment(text: string, style: StyleRef)

  /** A line is the sequence of fragments added to it since it was created. */
  datatype Line = Line(fragments: seq<Fragment>)

  /** `Line::new()`: a line holding no text. */
  const Empty: Line := Line([])

  /** `Line::add_text`: the line with one more styled fragment at its end. */
  function AddText(l: Line, text: string, style: StyleRef): Line
  {
    Line(l.fragments + [Fragment(text, style)])
  }

  /** A line always occupies at least one terminal row. */
  type Height = h: int | 1 <= h witness 1

  /** `Line::rendered_height(width)`: how many rows a line takes when
      wrapped at `width` columns. The wrapping rules live with the line and
      are not modelled, so every operation that needs the height takes it
      as a parameter of this type. */
  type Measure = (Line, int) -> Height
}
