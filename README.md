# joinToString, modelled in Dafny

This project models the collection-to-string joiner of the kotlin-examples repository. The repository has two copies of it:

- the top-level function `strings.joinToString(collection, separator = "; ", prefix = "<", postfix = ">")`, with the constant `DEFAULT_ELEMENT_SEPARATOR = "/ "`;
- the extension function `Collection<T>.joinToString(separator = ", ", prefix = "(", postfix = ")")` in package `collection`.

Both seed a `StringBuilder` with the prefix. They then walk the collection with `withIndex()`, append the separator before every element whose index is above 0, and append that element's string form. Finally they append the postfix and return the buffer's contents.

Layout:

- `joining.dfy`, module `Joining`: the specification. `Join(parts, sep)` is the parts with `sep` between consecutive ones. `Joined` adds the prefix and postfix. `Render(xs, str)` gives the elements' string forms. The lemmas cover how a join grows by one element, its length, where each element and separator sits, and the overall shape of the result.
- `builder.dfy`, module `Builder`: the `StringBuilder` as a class with one mutable `content` field. It has the seeding constructor, `Append`, and `ToString`, which models `toString()` as the accessor of `content`.
- `string_join.dfy`, module `StringJoin`: the top-level function as a method with a loop over a fresh `StringBuilder`. Its Kotlin defaults become Dafny default-valued parameters whose values are the module's constants `DefaultSeparator`, `DefaultPrefix` and `DefaultPostfix`. The module also holds `DefaultElementSeparator` and the example calls from `callingTopLevelFunctions`.
- `collection_ext.dfy`, module `CollectionExt`: the extension function, with its own loop and defaults. The receiver becomes the first parameter, and the defaults are the module's own three constants. The module also proves that, given the same arguments, this function agrees with the top-level one, and it holds the example call from `selfDefinedExtensionFunction`.
- `show.dfy`, module `Show`: decimal `Int.toString()`. It is used only as the element conversion in the example calls.

Each element's `toString()` is a parameter `str: T -> string`. So that `str` can be passed by position, it comes before the defaulted parameters, as the second parameter. The collection is a `seq<T>`, which is an immutable value. So "the collection is only read, never modified" holds by construction for both functions: neither method has a `modifies` clause, and the only object they change is the `StringBuilder` they allocate themselves.

Where the documentation and the code disagree, the model follows the code:

- The doc comment of the extension function (`src/main/kotlin/collection/CollectionExt.kt:6-8`) gives the top-level function's defaults `"; "`, `"<"`, `">"`. The code's defaults are `", "`, `"("`, `")"`, and the model uses those.
- Both doc comments say the postfix goes "after the first element". The code appends it once, after the loop, that is, after the last element.

## Model

| member | source | states |
|---|---|---|
| Joining.RenderSnoc | src/main/kotlin/StringJoin.kt:33-37 | Converting one more element, taken in `withIndex()` order, adds that element's string form to the end of the list of string forms and changes none of the earlier ones. |
| Joining.JoinSnoc | src/main/kotlin/StringJoin.kt:33-38 | One loop step: appending a part to a non-empty join adds exactly one separator and then the part. Appending to an empty join adds only the part, because there is no separator at index 0. |
| Joining.JoinAppend | src/main/kotlin/StringJoin.kt:33-38 | Joining two non-empty runs of elements gives the two joins with exactly one separator between them. |
| Joining.JoinLength | src/main/kotlin/StringJoin.kt:30-40 | For n >= 1 parts, the joined length is the sum of the part lengths plus (n - 1) separator lengths. |
| Joining.JoinSlotAt | src/main/kotlin/StringJoin.kt:33-38 | Part i sits at `Offset(i)`, which is the i earlier parts plus i separators. Every part except the first comes right after one separator. |
| Joining.JoinEndsAtLast | src/main/kotlin/StringJoin.kt:33-39 | A non-empty join ends exactly where its last part ends. The postfix follows directly, with no separator after the last element. |
| Joining.JoinLayout | src/main/kotlin/collection/CollectionExt.kt:16-21 | For n >= 1 the join is exactly a partition: the n parts in iteration order at consecutive offsets, one separator between each consecutive pair, none before the first part or after the last, and the last part ends the string. |
| Joining.JoinedShape | src/main/kotlin/StringJoin.kt:30-40 | The result starts with the prefix and ends with the postfix. No elements gives exactly prefix + postfix. One element gives prefix + element + postfix, with no separator. For n >= 1 the length is the prefix, postfix and part lengths plus (n - 1) separators. |
| StringJoin.JoinToString | src/main/kotlin/StringJoin.kt:26-41 | The buffer loop returns exactly prefix + Join(string forms, separator) + postfix, with the defaults "; ", "<", ">". The result starts with the prefix and ends with the postfix. Empty input gives prefix + postfix. One element gives prefix + str(x) + postfix. |
| StringJoin.ExampleJoin | src/main/kotlin/collection/CollectionsExample.kt:42-45 | The string forms of [1, 3, 9, 11] joined with any separator s are "1" s "3" s "9" s "11". |
| StringJoin.CallingTopLevelFunctions | src/main/kotlin/collection/CollectionsExample.kt:41-48 | On [1, 3, 9, 11]: the defaults give "<1; 3; 9; 11>". Prefix "[" and postfix "]" give "[1; 3; 9; 11]". Separator DEFAULT_ELEMENT_SEPARATOR gives "<1/ 3/ 9/ 11>". |
| CollectionExt.JoinToString | src/main/kotlin/collection/CollectionExt.kt:10-24 | The receiver's buffer loop returns exactly prefix + Join(string forms, separator) + postfix, with the defaults ", ", "(", ")". It also states the same prefix, postfix, empty and one-element facts as the top-level function. |
| CollectionExt.SameAsTopLevel | src/main/kotlin/collection/CollectionExt.kt:13-23 | Given the same separator, prefix and postfix, the extension function and the top-level `joinToString` return equal strings. |
| CollectionExt.ExampleJoin | src/main/kotlin/collection/CollectionsExample.kt:54-55 | The string forms of [12, 44, 99, 9] joined with any separator s are "12" s "44" s "99" s "9". |
| CollectionExt.SelfDefinedExtensionFunction | src/main/kotlin/collection/CollectionsExample.kt:53-58 | On [12, 44, 99, 9] with only the separator set to ": ", the result is "(12: 44: 99: 9)". |
| CollectionExt.EmptyWithDefaults | src/main/kotlin/collection/CollectionExt.kt:10-23 | An empty collection with all defaults gives "()": the loop body never runs, so only the default prefix and postfix are appended. |
| Builder.StringBuilder.constructor | src/main/kotlin/StringJoin.kt:30 | `StringBuilder(prefix)` starts with exactly the prefix as its content. |
| Builder.StringBuilder.Append | src/main/kotlin/StringJoin.kt:35-37 | `append` adds its argument at the end of the content and changes nothing else. |

## Left out

- The `main` functions and the demo functions only print to the console. The example methods keep the strings those demos print and leave out the I/O itself.
- `hashSetOf`, `hashMapOf`, `arrayListOf`, `set.last()`, `list.max()` and `javaClass` in the demo functions are calls into the standard library or JVM reflection, not joining logic. Hash-set iteration order is also unspecified.
- `@JvmOverloads`, `@file:JvmName` and the import alias `join` only affect Java interop and naming. They have no behaviour to model.
- The JVM conversion of an arbitrary element to a string (`String.valueOf`, including `"null"` for a null element) is not modelled. It is the parameter `str`. The example calls use a decimal rendering of integers in its place. `str` is a total, pure Dafny function. In Kotlin, an element `toString()` that throws or has side effects aborts or disturbs `joinToString` partway through, and `T -> string` cannot express that.
- Each collection is an immutable `seq`. The model has no mutable or concurrently modified collection, so it cannot model a `ConcurrentModificationException` during iteration.
- In Kotlin, a result longer than the JVM array limit (about `Int.MAX_VALUE` UTF-16 units) makes `StringBuilder` throw `OutOfMemoryError`. The model has no such limit and returns a string of any length. Strings are sequences of Dafny `char`, not UTF-16 units.
- `Show` is only a helper for the example calls. Nothing is proved about it beyond the concrete values those examples unfold.
