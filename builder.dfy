/**
 * The mutable character buffer both joiners accumulate into
 * (`java.lang.StringBuilder`, restricted to what they use of it).
 */
module Builder {

  class StringBuilder {
    /** The characters appended so far. */
    var content: string

    /** `StringBuilder(initial)`: a buffer seeded with `initial`. */
    constructor (initial: string)
      ensures content == initial
    {
      content := initial;
    }

    /** `append(s)`: adds `s` at the end and changes nothing else. */
    method Append(s: string)
      modifies this
      ensures content == old(content) + s
    {
      content := content + s;
    }

    /** `toString()`: the characters appended so far. */
    function ToString(): string
      reads this
    {
      content
    }
  }
}
