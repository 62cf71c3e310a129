/** The save files are read and written as a stream of XML events by the
    quick_xml library, which does the tokenising and the escaping of
    attribute values. The model works on that stream: attribute values here
    are already unescaped text. */
module XmlEvents {
  import opened Wrappers

  datatype Attr = Attr(key: string, value: string)

  datatype Event =
    | Start(name: string, attrs: seq<Attr>)   // an opening tag `<name ...>`
    | Empty(name: string, attrs: seq<Attr>)   // a self-closing tag `<name .../>`
    | End(name: string)                       // a closing tag `</name>`
    | Other                                   // text, comment, declaration: no reader here looks at it
    | Broken                                  // the tokeniser reported a syntax error

  /** Why a decode did not produce a record: an attribute value that does not
      parse (the `?` on `parse()`), or a tokeniser error, on which every
      reader in the source panics. */
  datatype DecodeError = BadValue(key: string) | ReaderPanic

  /** The attribute names of a tag, in the order they appear. */
  function Keys(attrs: seq<Attr>): seq<string> {
    seq(|attrs|, i requires 0 <= i < |attrs| => attrs[i].key)
  }

  /** The readers' `for attr in e.attributes() { match key { ... } }` loop:
      each attribute is applied in order, and the first one whose value does
      not parse ends the decode with that error. */
  function FoldAttrs<T>(t: T, attrs: seq<Attr>, apply: (T, Attr) -> Result<T, DecodeError>): Result<T, DecodeError>
    decreases |attrs|
  {
    if attrs == [] then Success(t)
    else
      match apply(t, attrs[0])
      case Failure(e) => Failure(e)
      case Success(t') => FoldAttrs(t', attrs[1..], apply)
  }

  /** An attribute that fails to apply makes the whole tag fail, whatever
      comes before and after it. */
  lemma {:induction false} FoldAttrsFailsAt<T>(t: T, attrs: seq<Attr>, apply: (T, Attr) -> Result<T, DecodeError>, i: nat)
    requires i < |attrs|
    requires forall u: T :: apply(u, attrs[i]).Failure?
    ensures FoldAttrs(t, attrs, apply).Failure?
    decreases |attrs|
  {
    if i > 0 {
      match apply(t, attrs[0])
      case Failure(_) =>
      case Success(t') =>
        assert attrs[1..][i - 1] == attrs[i];
        FoldAttrsFailsAt(t', attrs[1..], apply, i - 1);
    }
  }

  /** A fold whose every step keeps `f` of its state keeps it overall. */
  lemma {:induction false} FoldAttrsKeeps<T, X>(t: T, attrs: seq<Attr>, apply: (T, Attr) -> Result<T, DecodeError>, f: T -> X)
    requires forall u: T, a: Attr :: apply(u, a).Success? ==> f(apply(u, a).value) == f(u)
    requires FoldAttrs(t, attrs, apply).Success?
    ensures f(FoldAttrs(t, attrs, apply).value) == f(t)
    decreases |attrs|
  {
    if attrs != [] {
      FoldAttrsKeeps(apply(t, attrs[0]).value, attrs[1..], apply, f);
    }
  }

  /** A fold whose every step succeeds ends in the last of the states it
      passes through. */
  lemma {:induction false} FoldAttrsSteps<T>(ts: seq<T>, attrs: seq<Attr>, apply: (T, Attr) -> Result<T, DecodeError>)
    requires |ts| == |attrs| + 1
    requires forall i :: 0 <= i < |attrs| ==> apply(ts[i], attrs[i]) == Success(ts[i + 1])
    ensures FoldAttrs(ts[0], attrs, apply) == Success(ts[|attrs|])
    decreases |attrs|
  {
    if attrs != [] {
      assert apply(ts[0], attrs[0]) == Success(ts[1]);
      FoldAttrsSteps(ts[1..], attrs[1..], apply);
    }
  }

  /** Spaces per nesting level of quick_xml's indenting writer, as the
      person writer sets it up. */
  const IndentWidth: nat := 4

  /** The number of spaces the indenting writer puts before each event,
      starting at nesting depth `depth`: a start tag is written at the
      current depth and opens a level, an end tag closes one and is written
      at the depth it returns to. */
  function IndentsFrom(evs: seq<Event>, depth: nat): (r: seq<nat>)
    ensures |r| == |evs|
    decreases |evs|
  {
    if evs == [] then []
    else
      match evs[0]
      case Start(_, _) => [IndentWidth * depth] + IndentsFrom(evs[1..], depth + 1)
      case End(_) =>
        var d: nat := if depth > 0 then depth - 1 else 0;
        [IndentWidth * d] + IndentsFrom(evs[1..], d)
      case _ => [IndentWidth * depth] + IndentsFrom(evs[1..], depth)
  }

  function Indents(evs: seq<Event>): (r: seq<nat>)
    ensures |r| == |evs|
  {
    IndentsFrom(evs, 0)
  }

  /** The nesting depth after writing `evs`, starting at `depth`. */
  function DepthAfter(evs: seq<Event>, depth: nat): nat
    decreases |evs|
  {
    if evs == [] then depth
    else
      match evs[0]
      case Start(_, _) => DepthAfter(evs[1..], depth + 1)
      case End(_) => DepthAfter(evs[1..], if depth > 0 then depth - 1 else 0)
      case _ => DepthAfter(evs[1..], depth)
  }

  /** Indenting a concatenation: the second part is indented from the depth
      the first part leaves. */
  lemma {:induction false} IndentsFromAppend(a: seq<Event>, b: seq<Event>, depth: nat)
    ensures IndentsFrom(a + b, depth) == IndentsFrom(a, depth) + IndentsFrom(b, DepthAfter(a, depth))
    ensures DepthAfter(a + b, depth) == DepthAfter(b, DepthAfter(a, depth))
    decreases |a|
  {
    if a == [] {
      assert a + b == b;
    } else {
      assert (a + b)[0] == a[0] && (a + b)[1..] == a[1..] + b;
      match a[0]
      case Start(_, _) => IndentsFromAppend(a[1..], b, depth + 1);
      case End(_) => IndentsFromAppend(a[1..], b, if depth > 0 then depth - 1 else 0);
      case _ => IndentsFromAppend(a[1..], b, depth);
    }
  }

  /** A run of self-closing tags stays at one depth. */
  lemma {:induction false} IndentsOfEmptyTags(evs: seq<Event>, depth: nat)
    requires forall i :: 0 <= i < |evs| ==> evs[i].Empty?
    ensures DepthAfter(evs, depth) == depth
    ensures forall i :: 0 <= i < |evs| ==> IndentsFrom(evs, depth)[i] == IndentWidth * depth
    decreases |evs|
  {
    if evs != [] {
      IndentsOfEmptyTags(evs[1..], depth);
      assert forall i :: 1 <= i < |evs| ==> IndentsFrom(evs, depth)[i] == IndentsFrom(evs[1..], depth)[i - 1];
    }
  }
}
