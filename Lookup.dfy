/** First-match search over a list of names, shared by every name lookup of the model. */
module Lookup {

  /** The position of the first occurrence of `name` in `names`, or -1 when there is none. */
  function FirstIndexOf(names: seq<string>, name: string): (r: int)
    ensures -1 <= r < |names|
    ensures r == -1 <==> name !in names
    ensures r >= 0 ==> names[r] == name && name !in names[..r]
  {
    if names == [] then -1
    else if names[0] == name then 0
    else
      var k := FirstIndexOf(names[1..], name);
      if k < 0 then -1 else k + 1
  }
}
