/** File paths as a directory and a bare file name, with the parts of Node's `path` module the
    core uses: `join`, `dirname`, `basename` and `extname`. */
module Paths {
  import opened Outcomes
  import opened Strings

  /** `path.join(dir, name)` for a `name` without separators; `dirname` is `dir`, `basename` is `name`. */
  datatype Path = Path(dir: string, name: string)

  /** `path.extname(name)` for a bare name: from the last "." to the end, except that a name
      without a dot, a name whose only dot is its first character, and ".." have none. */
  function Extname(name: string): (e: string)
    ensures e == "" || (e[0] == '.' && |e| < |name| && name[|name| - |e|..] == e)
    ensures forall k :: 1 <= k < |e| ==> e[k] != '.'
  {
    match LastIndexOf(name, '.')
    case None => ""
    case Some(i) => if i == 0 || name == ".." then "" else name[i..]
  }

  /** `path.basename(name, path.extname(name))`: the name without its extension. */
  function Stem(name: string): (s: string)
    ensures s + Extname(name) == name
  {
    name[..|name| - |Extname(name)|]
  }

  /** What `extname` can return: nothing, or a dot followed by no further dot. */
  predicate IsExtension(e: string)
  {
    e == "" || (e[0] == '.' && forall k :: 1 <= k < |e| ==> e[k] != '.')
  }

  /** The textual form of a version-4 uuid: 36 lower-case hex digits and dashes. */
  predicate IsUuid(id: string)
  {
    |id| == 36 && forall k :: 0 <= k < |id| ==> if k == 8 || k == 13 || k == 18 || k == 23 then id[k] == '-' else IsHexDigit(id[k])
  }

  /** A uuid starts no existing file name: `uuidv4()` never collides with what is on disk. */
  predicate IsFreshId(id: string, used: set<Path>)
  {
    forall p :: p in used ==> !StartsWith(p.name, id)
  }

  /** Appending an extension to a uuid gives a name whose extension is that extension and whose
      stem is the uuid: the names the endpoint and the spreadsheet converter build split back. */
  lemma {:induction false} UuidNameSplits(id: string, e: string)
    requires IsUuid(id) && IsExtension(e)
    ensures Extname(id + e) == e
    ensures Stem(id + e) == id
  {
    var name := id + e;
    assert forall k :: 0 <= k < |id| ==> name[k] == id[k] && name[k] != '.';
    if e == "" {
      assert name == id;
    } else {
      assert name[|id|] == '.';
      var i := LastIndexOf(name, '.').value;
      assert i == |id|;
      assert name[i..] == e;
    }
  }

  /** Putting a new extension on a stem: the result's extension is the new one and its stem the old. */
  lemma {:induction false} NewExtensionSplits(stem: string, format: string)
    requires stem != "" && format != "" && '.' !in format
    ensures Extname(stem + "." + format) == "." + format
    ensures Stem(stem + "." + format) == stem
  {
    var name := stem + "." + format;
    assert name[|stem|] == '.';
    var i := LastIndexOf(name, '.').value;
    assert i == |stem|;
    assert name != "..";
    assert name[i..] == "." + format;
  }
}
