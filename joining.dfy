/**
 * The specification shared by both `joinToString` variants: what the string
 * built from a collection, a separator, a prefix and a postfix is.
 *
 * `Join` glues already-rendered elements together with a separator placed
 * between consecutive ones; `Joined` wraps that in the prefix and postfix.
 * The lemmas describe the shape of the result independently of how `Join`
 * recurses: how it extends by one element (the step the builder loops take),
 * how long it is, and where every element and every separator sits in it.
 */
module Joining {

  /** The string form of every element, in iteration order. */
  function Render<T>(xs: seq<T>, str: T -> string): seq<string>
  {
    if |xs| == 0 then [] else [str(xs[0])] + Render(xs[1..], str)
  }

  /** Rendering one more element adds its string form at the end. */
  lemma {:induction false} RenderSnoc<T>(xs: seq<T>, str: T -> string, i: nat)
    requires i < |xs|
    ensures Render(xs[..i + 1], str) == Render(xs[..i], str) + [str(xs[i])]
  {
    if i > 0 {
      assert xs[..i + 1][1..] == xs[1..][..i];
      assert xs[..i][1..] == xs[1..][..i - 1];
      RenderSnoc(xs[1..], str, i - 1);
    }
  }

  /** The parts with `sep` between each consecutive pair, none before the first or after the last. */
  function Join(parts: seq<string>, sep: string): string
  {
    if |parts| == 0 then ""
    else if |parts| == 1 then parts[0]
    else parts[0] + sep + Join(parts[1..], sep)
  }

  /** The whole result: `prefix`, the joined parts, `postfix`. */
  function Joined(parts: seq<string>, sep: string, prefix: string, postfix: string): string
  {
    prefix + Join(parts, sep) + postfix
  }

  /** The summed length of all parts. */
  function TotalLength(parts: seq<string>): nat
  {
    if |parts| == 0 then 0 else |parts[0]| + TotalLength(parts[1..])
  }

  /**
   * Where part `i` starts in `Join(parts, sep)`: after the `i` earlier parts
   * and the `i` separators that follow them.
   */
  function Offset(parts: seq<string>, sep: string, i: nat): nat
    requires i <= |parts|
  {
    TotalLength(parts[..i]) + i * |sep|
  }

  /** Appending one more part adds one separator and that part at the end. */
  lemma {:induction false} JoinSnoc(parts: seq<string>, sep: string, x: string)
    ensures Join(parts + [x], sep) == if |parts| == 0 then x else Join(parts, sep) + sep + x
  {
    if |parts| <= 1 {
      if |parts| == 1 {
        assert (parts + [x])[1..] == [x];
      }
    } else {
      assert (parts + [x])[1..] == parts[1..] + [x];
      JoinSnoc(parts[1..], sep, x);
    }
  }

  /** Joining two non-empty runs of parts puts exactly one separator between them. */
  lemma {:induction false} JoinAppend(a: seq<string>, b: seq<string>, sep: string)
    requires |a| > 0 && |b| > 0
    ensures Join(a + b, sep) == Join(a, sep) + sep + Join(b, sep)
  {
    if |a| == 1 {
      assert (a + b)[1..] == b;
    } else {
      assert (a + b)[1..] == a[1..] + b;
      JoinAppend(a[1..], b, sep);
    }
  }

  /** A non-empty join starts with its first part. */
  lemma JoinStartsWithFirst(parts: seq<string>, sep: string)
    requires |parts| > 0
    ensures |parts[0]| <= |Join(parts, sep)|
    ensures Join(parts, sep)[..|parts[0]|] == parts[0]
  {
  }

  /** Length of a join of n >= 1 parts: every part once and n - 1 separators. */
  lemma {:induction false} JoinLength(parts: seq<string>, sep: string)
    requires |parts| > 0
    ensures |Join(parts, sep)| == TotalLength(parts) + (|parts| - 1) * |sep|
  {
    if |parts| > 1 {
      JoinLength(parts[1..], sep);
      assert (|parts| - 1) * |sep| == (|parts| - 2) * |sep| + |sep|;
    }
  }

  /** Adding one part at the end adds its length to the total. */
  lemma {:induction false} TotalLengthSnoc(parts: seq<string>, x: string)
    ensures TotalLength(parts + [x]) == TotalLength(parts) + |x|
  {
    if |parts| > 0 {
      assert (parts + [x])[1..] == parts[1..] + [x];
      TotalLengthSnoc(parts[1..], x);
    }
  }

  /** The offset of the next part is one part and one separator further on. */
  lemma OffsetStep(parts: seq<string>, sep: string, i: nat)
    requires i < |parts|
    ensures Offset(parts, sep, i + 1) == Offset(parts, sep, i) + |parts[i]| + |sep|
  {
    assert parts[..i + 1] == parts[..i] + [parts[i]];
    TotalLengthSnoc(parts[..i], parts[i]);
  }

  /**
   * Layout of `Join(parts, sep)` at part `i`: the part occupies
   * `[Offset(i), Offset(i) + |parts[i]|)` and, unless it is the first part,
   * it is immediately preceded by one separator.
   */
  lemma JoinSlotAt(parts: seq<string>, sep: string, i: nat)
    requires i < |parts|
    ensures Offset(parts, sep, i) + |parts[i]| <= |Join(parts, sep)|
    ensures Join(parts, sep)[Offset(parts, sep, i)..Offset(parts, sep, i) + |parts[i]|] == parts[i]
    ensures i > 0 ==> |sep| <= Offset(parts, sep, i)
    ensures i > 0 ==> Join(parts, sep)[Offset(parts, sep, i) - |sep|..Offset(parts, sep, i)] == sep
  {
    var j := Join(parts, sep);
    var o := Offset(parts, sep, i);
    if i == 0 {
      assert parts[..0] == [];
      JoinStartsWithFirst(parts, sep);
    } else {
      var front, back := parts[..i], parts[i..];
      assert parts == front + back;
      JoinAppend(front, back, sep);
      JoinLength(front, sep);
      JoinStartsWithFirst(back, sep);
      var jf, jb := Join(front, sep), Join(back, sep);
      assert j == jf + sep + jb;
      assert |jf| + |sep| == o by {
        assert (i - 1) * |sep| + |sep| == i * |sep|;
      }
      assert j[o - |sep|..o] == sep;
      assert j[o..o + |parts[i]|] == jb[..|parts[i]|];
    }
  }

  /** A non-empty join ends exactly where its last part does. */
  lemma JoinEndsAtLast(parts: seq<string>, sep: string)
    requires |parts| > 0
    ensures |Join(parts, sep)| == Offset(parts, sep, |parts| - 1) + |parts[|parts| - 1]|
  {
    var n := |parts|;
    JoinLength(parts, sep);
    assert parts[..n] == parts;
    OffsetStep(parts, sep, n - 1);
    assert (n - 1) * |sep| + |sep| == n * |sep|;
  }

  /**
   * The complete shape of a join of n >= 1 parts: part i sits at `Offset(i)`,
   * a separator sits right before each part but the first, consecutive slots
   * abut, and the last part ends the string. So the result is made of the
   * n parts in order and exactly n - 1 separators, one between each
   * consecutive pair, and nothing else.
   */
  lemma JoinLayout(parts: seq<string>, sep: string)
    requires |parts| > 0
    ensures |Join(parts, sep)| == Offset(parts, sep, |parts| - 1) + |parts[|parts| - 1]|
    ensures forall i :: 0 <= i < |parts| ==>
      Offset(parts, sep, i) + |parts[i]| <= |Join(parts, sep)| &&
      Join(parts, sep)[Offset(parts, sep, i)..Offset(parts, sep, i) + |parts[i]|] == parts[i]
    ensures forall i :: 0 < i < |parts| ==>
      Offset(parts, sep, i) == Offset(parts, sep, i - 1) + |parts[i - 1]| + |sep| &&
      Join(parts, sep)[Offset(parts, sep, i) - |sep|..Offset(parts, sep, i)] == sep
  {
    var n := |parts|;
    JoinEndsAtLast(parts, sep);
    forall i | 0 <= i < n
      ensures Offset(parts, sep, i) + |parts[i]| <= |Join(parts, sep)|
      ensures Join(parts, sep)[Offset(parts, sep, i)..Offset(parts, sep, i) + |parts[i]|] == parts[i]
    {
      JoinSlotAt(parts, sep, i);
    }
    forall i | 0 < i < n
      ensures Offset(parts, sep, i) == Offset(parts, sep, i - 1) + |parts[i - 1]| + |sep|
      ensures Join(parts, sep)[Offset(parts, sep, i) - |sep|..Offset(parts, sep, i)] == sep
    {
      OffsetStep(parts, sep, i - 1);
      JoinSlotAt(parts, sep, i);
    }
  }

  /**
   * What the whole result looks like: it starts with `prefix`, ends with
   * `postfix`, is exactly `prefix + postfix` for no parts, carries no
   * separator for one part, and otherwise has the length of the prefix,
   * postfix, every part and n - 1 separators.
   */
  lemma JoinedShape(parts: seq<string>, sep: string, prefix: string, postfix: string)
    ensures |prefix| + |postfix| <= |Joined(parts, sep, prefix, postfix)|
    ensures Joined(parts, sep, prefix, postfix)[..|prefix|] == prefix
    ensures Joined(parts, sep, prefix, postfix)[|Joined(parts, sep, prefix, postfix)| - |postfix|..] == postfix
    ensures |parts| == 0 ==> Joined(parts, sep, prefix, postfix) == prefix + postfix
    ensures |parts| == 1 ==> Joined(parts, sep, prefix, postfix) == prefix + parts[0] + postfix
    ensures |parts| > 0 ==>
      |Joined(parts, sep, prefix, postfix)| == |prefix| + |postfix| + TotalLength(parts) + (|parts| - 1) * |sep|
  {
    if |parts| > 0 {
      JoinLength(parts, sep);
    }
  }
}
