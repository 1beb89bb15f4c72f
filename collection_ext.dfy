/**
 * The extension `Collection<T>.joinToString(separator, prefix, postfix)` of
 * package `collection`, with its defaults `", "`, `"("`, `")"`. The receiver
 * collection becomes the first parameter.
 */
module CollectionExt {
  import opened Joining
  import opened Builder
  import Show
  import StringJoin

  /** The extension's default separator, prefix and postfix. */
  const DefaultSeparator: string := ", "
  const DefaultPrefix: string := "("
  const DefaultPostfix: string := ")"

  /**
   * Seeds a buffer with `prefix`, appends every element's string form in
   * iteration order with `separator` before each one but the first, then
   * appends `postfix`. `str` is the element's `toString()`.
   */
  method JoinToString<T>(receiver: seq<T>, str: T -> string,
                         separator: string := DefaultSeparator, prefix: string := DefaultPrefix,
                         postfix: string := DefaultPostfix)
    returns (r: string)
    ensures r == Joined(Render(receiver, str), separator, prefix, postfix)
    ensures |prefix| + |postfix| <= |r| && r[..|prefix|] == prefix && r[|r| - |postfix|..] == postfix
    ensures |receiver| == 0 ==> r == prefix + postfix
    ensures |receiver| == 1 ==> r == prefix + str(receiver[0]) + postfix
  {
    var result := new StringBuilder(prefix);
    for index := 0 to |receiver|
      invariant result.content == prefix + Join(Render(receiver[..index], str), separator)
    {
      var element := receiver[index];
      if index > 0 {
        result.Append(separator);
      }
      result.Append(str(element));
      JoinSnoc(Render(receiver[..index], str), separator, str(element));
      RenderSnoc(receiver, str, index);
    }
    result.Append(postfix);
    r := result.ToString();
    assert receiver[..|receiver|] == receiver;
    JoinedShape(Render(receiver, str), separator, prefix, postfix);
  }

  /**
   * Given the same separator, prefix and postfix, the extension and the
   * top-level function build the same string.
   */
  method SameAsTopLevel<T>(xs: seq<T>, str: T -> string, separator: string, prefix: string, postfix: string)
    returns (extension: string, topLevel: string)
    ensures extension == topLevel
    ensures extension == Joined(Render(xs, str), separator, prefix, postfix)
  {
    extension := JoinToString(xs, str, separator, prefix, postfix);
    topLevel := StringJoin.JoinToString(xs, str, separator, prefix, postfix);
  }

  /**
   * The call made on `listOf(12, 44, 99, 9)` with only the separator given
   * by name.
   */
  method SelfDefinedExtensionFunction() returns (listAsString: string)
    ensures listAsString == "(12: 44: 99: 9)"
  {
    var list := [12, 44, 99, 9];
    ExampleJoin(": ");
    listAsString := JoinToString(list, Show.IntToString, separator := ": ");
  }

  /** An empty receiver with all defaults yields just the default prefix and postfix. */
  method EmptyWithDefaults<T>(str: T -> string) returns (empty: string)
    ensures empty == "()"
  {
    empty := JoinToString([], str);
  }

  /** The string forms of `listOf(12, 44, 99, 9)` joined with any separator. */
  lemma ExampleJoin(sep: string)
    ensures Join(Render([12, 44, 99, 9], Show.IntToString), sep) == "12" + sep + "44" + sep + "99" + sep + "9"
  {
    var rendered := Render([12, 44, 99, 9], Show.IntToString);
    assert rendered == ["12", "44", "99", "9"] by {
      assert Show.IntToString(12) == Show.NatToString(1) + [Show.DigitChar(2)] == "12";
      assert Show.IntToString(44) == Show.NatToString(4) + [Show.DigitChar(4)] == "44";
      assert Show.IntToString(99) == Show.NatToString(9) + [Show.DigitChar(9)] == "99";
    }
    assert Join(["99", "9"], sep) == "99" + sep + "9" by {
      assert ["99", "9"][1..] == ["9"];
    }
    assert Join(["44", "99", "9"], sep) == "44" + sep + "99" + sep + "9" by {
      assert ["44", "99", "9"][1..] == ["99", "9"];
    }
    assert Join(["12", "44", "99", "9"], sep) == "12" + sep + "44" + sep + "99" + sep + "9" by {
      assert ["12", "44", "99", "9"][1..] == ["44", "99", "9"];
    }
  }
}
