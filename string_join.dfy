/**
 * The top-level `joinToString(collection, separator, prefix, postfix)` of
 * package `strings`, with its defaults `"; "`, `"<"`, `">"`, and the
 * top-level constant `DEFAULT_ELEMENT_SEPARATOR`.
 */
module StringJoin {
  import opened Joining
  import opened Builder
  import Show

  /** `DEFAULT_ELEMENT_SEPARATOR`, an alternative separator callers may pass. */
  const DefaultElementSeparator: string := "/ "

  /** The top-level function's default separator, prefix and postfix. */
  const DefaultSeparator: string := "; "
  const DefaultPrefix: string := "<"
  const DefaultPostfix: string := ">"

  /**
   * Seeds a buffer with `prefix`, appends every element's string form in
   * iteration order with `separator` before each one but the first, then
   * appends `postfix`. `str` is the element's `toString()`.
   */
  method JoinToString<T>(collection: seq<T>, str: T -> string,
                         separator: string := DefaultSeparator, prefix: string := DefaultPrefix,
                         postfix: string := DefaultPostfix)
    returns (r: string)
    ensures r == Joined(Render(collection, str), separator, prefix, postfix)
    ensures |prefix| + |postfix| <= |r| && r[..|prefix|] == prefix && r[|r| - |postfix|..] == postfix
    ensures |collection| == 0 ==> r == prefix + postfix
    ensures |collection| == 1 ==> r == prefix + str(collection[0]) + postfix
  {
    var result := new StringBuilder(prefix);
    for index := 0 to |collection|
      invariant result.content == prefix + Join(Render(collection[..index], str), separator)
    {
      var element := collection[index];
      if index > 0 {
        result.Append(separator);
      }
      result.Append(str(element));
      JoinSnoc(Render(collection[..index], str), separator, str(element));
      RenderSnoc(collection, str, index);
    }
    result.Append(postfix);
    r := result.ToString();
    assert collection[..|collection|] == collection;
    JoinedShape(Render(collection, str), separator, prefix, postfix);
  }

  /**
   * The calls made on `listOf(1, 3, 9, 11)`: all defaults, a `"["`/`"]"`
   * prefix and postfix by name, and `DefaultElementSeparator` as separator.
   */
  method CallingTopLevelFunctions() returns (allDefaults: string, namedParameters: string, otherSeparator: string)
    ensures allDefaults == "<1; 3; 9; 11>"
    ensures namedParameters == "[1; 3; 9; 11]"
    ensures otherSeparator == "<1/ 3/ 9/ 11>"
  {
    var list := [1, 3, 9, 11];
    ExampleJoin("; ");
    ExampleJoin(DefaultElementSeparator);
    allDefaults := JoinToString(list, Show.IntToString);
    namedParameters := JoinToString(list, Show.IntToString, prefix := "[", postfix := "]");
    otherSeparator := JoinToString(list, Show.IntToString, DefaultElementSeparator);
  }

  /** The string forms of `listOf(1, 3, 9, 11)` joined with any separator. */
  lemma ExampleJoin(sep: string)
    ensures Join(Render([1, 3, 9, 11], Show.IntToString), sep) == "1" + sep + "3" + sep + "9" + sep + "11"
  {
    var rendered := Render([1, 3, 9, 11], Show.IntToString);
    assert rendered == ["1", "3", "9", "11"] by {
      assert Show.IntToString(11) == Show.NatToString(1) + [Show.DigitChar(1)] == "11";
    }
    assert Join(["9", "11"], sep) == "9" + sep + "11" by {
      assert ["9", "11"][1..] == ["11"];
    }
    assert Join(["3", "9", "11"], sep) == "3" + sep + "9" + sep + "11" by {
      assert ["3", "9", "11"][1..] == ["9", "11"];
    }
    assert Join(["1", "3", "9", "11"], sep) == "1" + sep + "3" + sep + "9" + sep + "11" by {
      assert ["1", "3", "9", "11"][1..] == ["3", "9", "11"];
    }
  }
}
