/** The path and key string manipulation of the stages: Node's last
    extension rule for `.json` renaming, the `:` to `_` file naming of
    keys, and key prefix normalisation. A path is a sequence of names. */
module Paths {
  import opened Js

  type Path = seq<string>

  /** The index of the last '.' in `name`, if any. */
  function LastDot(name: string): (r: Option<nat>)
    ensures r.Some? ==> r.value < |name| && name[r.value] == '.'
    ensures r.Some? ==> forall i :: r.value < i < |name| ==> name[i] != '.'
    ensures r.None? ==> forall i :: 0 <= i < |name| ==> name[i] != '.'
  {
    if name == [] then None
    else if name[|name| - 1] == '.' then Some(|name| - 1)
    else LastDot(name[..|name| - 1])
  }

  /** path.extname of one name: from its last '.', unless there is none,
      the dot is the name's first character, or the name is "..". */
  function Extname(name: string): (e: string)
    ensures |e| <= |name| && e == name[|name| - |e|..] && (e == [] || e[0] == '.')
  {
    var d := LastDot(name);
    if d.None? || d.value == 0 || name == ".." then "" else name[d.value..]
  }

  /** `${basename(p, extname(p))}.json`: the name with its last extension
      replaced by ".json". */
  function JsonName(name: string): string {
    var e := Extname(name);
    name[..|name| - |e|] + ".json"
  }

  /** The destination of a structured file: same directory, `.json` name. */
  function JsonPath(rel: Path): Path
    requires |rel| > 0
  {
    rel[..|rel| - 1] + [JsonName(rel[|rel| - 1])]
  }

  /** The last dot of `s + "." + t` is the one after `s` when `t` has none. */
  lemma {:induction false} LastDotBefore(s: string, t: string)
    requires forall i :: 0 <= i < |t| ==> t[i] != '.'
    ensures LastDot(s + "." + t) == Some(|s|)
  {
    if t != [] {
      var n := s + "." + t;
      assert n[..|n| - 1] == s + "." + t[..|t| - 1];
      LastDotBefore(s, t[..|t| - 1]);
    } else {
      assert s + "." + t == s + ".";
    }
  }

  lemma ExtnameOfJson(s: string)
    requires s != []
    ensures Extname(s + ".json") == ".json"
  {
    var n := s + ".json";
    assert n == s + "." + "json";
    LastDotBefore(s, "json");
    assert n != "..";
  }

  /** The new name keeps everything before the last extension and ends in
      ".json"; a name that already ends in ".json" is left as it is, so
      renaming again changes nothing. */
  lemma JsonNameSpec(name: string)
    requires name != []
    ensures var r := JsonName(name);
      && r == name[..|name| - |Extname(name)|] + ".json"
      && |name[..|name| - |Extname(name)|]| > 0
      && JsonName(r) == r
  {
    var e := Extname(name);
    var stem := name[..|name| - |e|];
    if e != [] {
      assert LastDot(name).Some? && LastDot(name).value > 0;
      assert |stem| == LastDot(name).value;
    }
    ExtnameOfJson(stem);
    assert (stem + ".json")[..|stem + ".json"| - 5] == stem;
  }

  /** A name without a dot just gets ".json" appended. */
  lemma JsonNameNoDot(name: string)
    requires forall i :: 0 <= i < |name| ==> name[i] != '.'
    ensures JsonName(name) == name + ".json"
  {
  }

  /** `key.replace(/:/gi, '_')`: every ':' becomes '_', nothing else changes. */
  function Underscored(key: string): (r: string)
    ensures |r| == |key|
    ensures forall i :: 0 <= i < |r| ==> r[i] == (if key[i] == ':' then '_' else key[i])
  {
    seq(|key|, i requires 0 <= i < |key| => if key[i] == ':' then '_' else key[i])
  }

  /** The flat file name of a key: `<key with '_' for ':'>.json`. */
  function KeyFileName(key: string): (r: string)
    ensures r == Underscored(key) + ".json"
    ensures forall i :: 0 <= i < |key| ==> r[i] != ':'
  {
    Underscored(key) + ".json"
  }

  /** The position of the first '/' in `name`, or its length. */
  function SlashAt(name: string): (r: nat)
    ensures r <= |name| && (r < |name| ==> name[r] == '/')
    ensures forall j :: 0 <= j < r ==> name[j] != '/'
    decreases |name|
  {
    if name == [] || name[0] == '/' then 0 else 1 + SlashAt(name[1..])
  }

  /** A piece of a name that `join` drops: an empty one, or ".". */
  predicate Dropped(c: string) {
    |c| == 0 || (|c| == 1 && c[0] == '.')
  }

  /** A path component `join` keeps: not empty, not ".", and without '/'. */
  predicate IsSegment(c: string) {
    !Dropped(c) && forall j :: 0 <= j < |c| ==> c[j] != '/'
  }

  /** The path components `join` makes of a relative name: it is cut at
      every '/', and the empty and "." pieces are dropped. */
  function Segments(name: string): (p: Path)
    ensures forall i :: 0 <= i < |p| ==> IsSegment(p[i])
    decreases |name|
  {
    var i := SlashAt(name);
    var head := name[..i];
    var rest := if i < |name| then Segments(name[i + 1..]) else [];
    assert forall j :: 0 <= j < |head| ==> head[j] == name[j];
    var front: Path := if Dropped(head) then [] else [head];
    assert forall k :: 0 <= k < |front| ==> IsSegment(front[k]);
    front + rest
  }

  /** A name without '/' (and not "" or ".") is one component. */
  lemma SegmentsOfPlainName(name: string)
    requires IsSegment(name)
    ensures Segments(name) == [name]
  {
    assert SlashAt(name) == |name|;
    assert name[..|name|] == name;
  }

  /** A name with a character other than '/' and '.' has a component. */
  lemma {:induction false} SegmentsNonEmpty(name: string, j: nat)
    requires j < |name| && name[j] != '/' && name[j] != '.'
    ensures |Segments(name)| > 0
    decreases |name|
  {
    var i := SlashAt(name);
    if j < i {
      KeptHead(name[..i], j);
    } else {
      assert j > i;
      assert name[i + 1..][j - i - 1] == name[j];
      SegmentsNonEmpty(name[i + 1..], j - i - 1);
    }
  }

  /** A piece with a character other than '.' is kept. */
  lemma KeptHead(head: string, j: nat)
    requires j < |head| && head[j] != '.'
    ensures !Dropped(head)
  {
  }

  /** `join(root, '<key with _ for :>.json')`, the file a key is written to
      when records are named after their keys: `join` cuts the name at
      each '/', so a '/' in the key puts the file in a sub-folder of
      `root`. */
  function KeyFile(root: Path, key: string): (p: Path)
    ensures |p| > |root|
  {
    var name := KeyFileName(key);
    SegmentsNonEmpty(name, |name| - 1);
    root + FileSegments(name)
  }

  /** The components of a file name whose last character is neither '/'
      nor '.': there is at least one. */
  function FileSegments(name: string): (p: Path)
    requires |name| > 0 && name[|name| - 1] != '/' && name[|name| - 1] != '.'
    ensures |p| > 0
  {
    SegmentsNonEmpty(name, |name| - 1);
    Segments(name)
  }

  /** The file of a key lies below `root`, one proper component per
      level. */
  lemma KeyFileUnder(root: Path, key: string)
    ensures var p := KeyFile(root, key);
      p[..|root|] == root && forall i :: |root| <= i < |p| ==> IsSegment(p[i])
  {
    var s := Segments(KeyFileName(key));
    assert forall i :: |root| <= i < |root + s| ==> (root + s)[i] == s[i - |root|];
  }

  /** A key without '/' has its file directly in `root`. */
  lemma KeyFileOfPlainKey(root: Path, key: string)
    requires forall i :: 0 <= i < |key| ==> key[i] != '/'
    ensures KeyFile(root, key) == root + [KeyFileName(key)]
  {
    var name := KeyFileName(key);
    assert name[|name| - 1] == 'n';
    SegmentsOfPlainName(name);
  }

  /** A key minted from the prefix `a/b` has its file in the folder `a`
      of `root`. */
  lemma KeyFileNests(root: Path, uuid: string)
    requires forall i :: 0 <= i < |uuid| ==> uuid[i] != '/' && uuid[i] != ':'
    ensures KeyFile(root, MintKey("a/b", uuid)) == root + ["a", "b_" + uuid + ".json"]
  {
    var name := KeyFileName(MintKey("a/b", uuid));
    assert name == "a/b_" + uuid + ".json";
    assert SlashAt(name) == 1;
    assert name[..1] == "a" && name[2..] == "b_" + uuid + ".json";
    SegmentsOfPlainName("b_" + uuid + ".json");
    assert Segments(name) == ["a"] + Segments(name[2..]);
  }

  /** `prefix.endsWith(':') ? prefix.slice(0, -1) : prefix` */
  function NormalisePrefix(prefix: string): (r: string)
    ensures prefix == r || prefix == r + ":"
    ensures |prefix| > 0 && prefix[|prefix| - 1] == ':' <==> prefix == r + ":"
  {
    if |prefix| > 0 && prefix[|prefix| - 1] == ':' then prefix[..|prefix| - 1] else prefix
  }

  /** `${prefix}:${uuid}` */
  function MintKey(prefix: string, uuid: string): (key: string)
    ensures |key| == |prefix| + 1 + |uuid|
    ensures key[..|prefix| + 1] == prefix + ":" && key[|prefix| + 1..] == uuid
  {
    prefix + ":" + uuid
  }

  /** Only one trailing ':' is removed: "docs::" becomes "docs:". */
  lemma NormaliseStripsOneColon(p: string)
    ensures NormalisePrefix(p + "::") == p + ":"
    ensures NormalisePrefix(NormalisePrefix(p + ":")) == NormalisePrefix(p)
  {
    assert (p + "::")[..|p| + 1] == p + ":";
    assert (p + ":")[..|p|] == p;
  }

  /** `id.slice(n + 1)`: the id without its first n + 1 characters. */
  function DropPrefix(id: string, n: nat): (r: string)
    ensures |id| > n ==> r == id[n + 1..]
    ensures |id| <= n ==> r == ""
  {
    if |id| > n then id[n + 1..] else ""
  }

  /** Dropping `|prefix| + 1` characters of `prefix:rest` gives `rest`. */
  lemma DropPrefixOfKey(prefix: string, rest: string)
    ensures DropPrefix(MintKey(prefix, rest), |prefix|) == rest
  {
  }

  /** `name.endsWith(suffix)` */
  predicate EndsWith(name: string, suffix: string) {
    |suffix| <= |name| && name[|name| - |suffix|..] == suffix
  }

  /** `basename(name, '.json')`: the suffix is removed unless it is the
      whole name. */
  function StripJson(name: string): (r: string)
    ensures EndsWith(name, ".json") && name != ".json" ==> r + ".json" == name
    ensures !EndsWith(name, ".json") || name == ".json" ==> r == name
  {
    if EndsWith(name, ".json") && name != ".json" then name[..|name| - 5] else name
  }
}
