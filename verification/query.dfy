/**
  A URL query string as `&`-separated `name=value` parameters: building one
  by joining and reading it back by splitting.
 */
module Query {
  import opened JsText

  /** `parts.join(sep)`. */
  function Join(parts: seq<string>, sep: char): string {
    if |parts| == 0 then ""
    else if |parts| == 1 then parts[0]
    else parts[0] + [sep] + Join(parts[1..], sep)
  }

  /** `s.split(sep)`: the pieces between separators, at least one. */
  function Split(s: string, sep: char): (parts: seq<string>)
    ensures |parts| >= 1
    decreases |s|
  {
    if sep in s then
      var i := IndexOf(s, sep);
      [s[..i]] + Split(s[i + 1..], sep)
    else [s]
  }

  /** Splitting a join gives back the parts when no part contains the separator. */
  lemma {:induction false} SplitJoin(parts: seq<string>, sep: char)
    requires |parts| >= 1
    requires forall k :: 0 <= k < |parts| ==> sep !in parts[k]
    ensures Split(Join(parts, sep), sep) == parts
    decreases |parts|
  {
    if |parts| > 1 {
      var p := parts[0];
      var rest := Join(parts[1..], sep);
      var s := Join(parts, sep);
      assert s == p + [sep] + rest;
      assert s[..|p|] == p;
      IndexOfIs(s, sep, |p|);
      assert s[|p| + 1..] == rest;
      assert Split(s, sep) == [p] + Split(rest, sep);
      SplitJoin(parts[1..], sep);
      assert parts == [p] + parts[1..];
    }
  }

  /** One parameter: the name before the first `=`, the value after it. */
  function Param(part: string): (string, string) {
    if '=' in part then
      var i := IndexOf(part, '=');
      (part[..i], part[i + 1..])
    else (part, "")
  }

  /** The parameters of a query string, in order. */
  function Parse(query: string): (params: seq<(string, string)>)
    ensures |params| == |Split(query, '&')|
  {
    var parts := Split(query, '&');
    seq(|parts|, k requires 0 <= k < |parts| => Param(parts[k]))
  }

  /** `name=value` for each parameter, in order. */
  function Pieces(params: seq<(string, string)>): (parts: seq<string>)
    ensures |parts| == |params|
    ensures forall k :: 0 <= k < |params| ==> parts[k] == params[k].0 + "=" + params[k].1
  {
    if params == [] then [] else [params[0].0 + "=" + params[0].1] + Pieces(params[1..])
  }

  /** The query string carrying `params` in order. */
  function Build(params: seq<(string, string)>): string {
    Join(Pieces(params), '&')
  }

  predicate PlainName(s: string) {
    '=' !in s && '&' !in s
  }

  /** Parsing a built query gives back its parameters when names and values hold no `=` or `&`. */
  lemma ParseBuild(params: seq<(string, string)>)
    requires |params| >= 1
    requires forall k :: 0 <= k < |params| ==> PlainName(params[k].0) && PlainName(params[k].1)
    ensures Parse(Build(params)) == params
  {
    var parts := Pieces(params);
    forall k | 0 <= k < |parts|
      ensures '&' !in parts[k] && Param(parts[k]) == params[k]
    {
      var name := params[k].0;
      IndexOfIs(parts[k], '=', |name|);
      assert parts[k][..|name|] == name;
      assert parts[k][|name| + 1..] == params[k].1;
    }
    SplitJoin(parts, '&');
  }
}
