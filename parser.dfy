/** src/loader/parser.cc: helpers for reading a scene description. The YAML
  * library is not modelled; a parsed document is the `Node` value below, and a
  * scalar carries the number `as<float>()` would convert it to, if any.
  * `error` logs and calls `exit(1)`, so it never returns: every check below
  * either passes or ends in a `Failure`, after which nothing else runs. */
module LoaderParser {
  import opened Wrappers
  import opened Numerics
  import opened CoreVector3

  datatype Node =
    | Null
    | Scalar(text: string, number: Option<real>)
    | Sequence(items: seq<Node>)
    | Map(entries: seq<(Node, Node)>)

  /** How a check ends the program: `error(message, node)` exits with status 1;
    * a failed `as<float>()` throws yaml-cpp's conversion exception. */
  datatype Failure = Fatal(message: string) | BadConversion

  datatype Outcome<T> = Ok(value: T) | Fail(failure: Failure)

  /** `lower(orig)`: a string of the same length, filled by `transform` with
    * `tolower` of each character. */
  method Lower(orig: string) returns (ret: string)
    ensures ret == Lowered(orig)
  {
    var buf := new char[|orig|];
    for i := 0 to |orig|
      invariant forall j :: 0 <= j < i ==> buf[j] == LowerChar(orig[j])
    {
      buf[i] := LowerChar(orig[i]);
    }
    ret := buf[..];
  }

  /** Lower-casing twice is lower-casing once. */
  lemma LowerIdempotent(s: string)
    ensures Lowered(Lowered(s)) == Lowered(s)
  {
    var once := Lowered(s);
    forall i | 0 <= i < |s|
      ensures Lowered(once)[i] == once[i]
    {
      assert !('A' <= once[i] <= 'Z');
    }
  }

  /** A lower-cased string holds no upper-case letter, and a string without one
    * is its own lower-case form. */
  lemma LowerFixesLowerCase(s: string)
    requires forall i :: 0 <= i < |s| ==> !('A' <= s[i] <= 'Z')
    ensures Lowered(s) == s
  {
  }

  /** `assertMap(node)`. */
  function AssertMap(node: Node): (r: Option<Failure>)
    ensures r == None <==> node.Map?
    ensures r.Some? ==> r.value == Fatal("Not a map")
  {
    if !node.Map? then Some(Fatal("Not a map")) else None
  }

  /** `assertSequence(node, size)`: a sequence of exactly `size` elements. */
  function AssertSequence(node: Node, size: nat): (r: Option<Failure>)
    ensures r == None <==> node.Sequence? && |node.items| == size
    ensures r.Some? ==> r.value == Fatal("Not a vector")
  {
    if !node.Sequence? || |node.items| != size then Some(Fatal("Not a vector")) else None
  }

  /** A scalar that converts to a float. */
  predicate IsNumber(node: Node) {
    node.Scalar? && node.number.Some?
  }

  /** `assertNumber(node)`: a non-scalar is a fatal error; a scalar that does not
    * convert makes `as<float>()` throw. */
  function AssertNumber(node: Node): (r: Option<Failure>)
    ensures r == None <==> IsNumber(node)
    ensures !node.Scalar? ==> r == Some(Fatal("Not a value"))
    ensures node.Scalar? && r.Some? ==> r.value == BadConversion
  {
    if !node.Scalar? then Some(Fatal("Not a value"))
    else if node.number.None? then Some(BadConversion)
    else None
  }

  /** `assertString(node)`: any scalar passes. */
  function AssertString(node: Node): (r: Option<Failure>)
    ensures r == None <==> node.Scalar?
    ensures r.Some? ==> r.value == Fatal("Not a string")
  {
    if !node.Scalar? then Some(Fatal("Not a string")) else None
  }

  /** Index of the first element that is not a number, or `|items|`. */
  function FirstNonNumber(items: seq<Node>): (k: nat)
    ensures k <= |items|
    ensures forall j :: 0 <= j < k ==> IsNumber(items[j])
    ensures k < |items| ==> !IsNumber(items[k])
  {
    if |items| == 0 || !IsNumber(items[0]) then 0 else 1 + FirstNonNumber(items[1..])
  }

  /** A node `parseVector3` accepts: a sequence of three numbers. */
  predicate IsVector3Node(node: Node) {
    node.Sequence? && |node.items| == 3 && forall i :: 0 <= i < 3 ==> IsNumber(node.items[i])
  }

  /** `parseVector3(node)`: a three-element sequence, then each element checked
    * and stored in order; the first failing check ends the program. */
  method ParseVector3(node: Node) returns (r: Outcome<Vector3>)
    ensures r.Ok? <==> IsVector3Node(node)
    ensures r.Ok? ==> forall i :: 0 <= i < 3 ==> Get(r.value, i) == node.items[i].number.value
    ensures !(node.Sequence? && |node.items| == 3) ==> r == Fail(Fatal("Not a vector"))
    ensures node.Sequence? && |node.items| == 3 && r.Fail? ==>
      FirstNonNumber(node.items) < 3 && Some(r.failure) == AssertNumber(node.items[FirstNonNumber(node.items)])
  {
    var f := AssertSequence(node, 3);
    if f.Some? {
      return Fail(f.value);
    }
    var ret := Zero;
    for i := 0 to 3
      invariant forall j :: 0 <= j < i ==> IsNumber(node.items[j]) && Get(ret, j) == node.items[j].number.value
    {
      var g := AssertNumber(node.items[i]);
      if g.Some? {
        FirstNonNumberAt(node.items, i);
        return Fail(g.value);
      }
      ret := With(ret, i, node.items[i].number.value);
    }
    return Ok(ret);
  }

  /** If every element before `i` is a number and element `i` is not, `i` is
    * the first that is not. */
  lemma FirstNonNumberAt(items: seq<Node>, i: nat)
    requires i < |items| && !IsNumber(items[i])
    requires forall j :: 0 <= j < i ==> IsNumber(items[j])
    ensures FirstNonNumber(items) == i
  {
  }
}
