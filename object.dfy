/**
 * The Wavefront OBJ loader of src/object.rs: the `scan!` macro and `load`.
 *
 * `load` reads the file line by line. `v`, `vt` and `vn` records are pushed
 * onto three raw attribute tables, each `f` record pushes three 1-based
 * indices onto each of three index lists, and once the whole input is read
 * every index triple is resolved against the tables. Every `unwrap` and
 * every out-of-bounds index of the source is an `Err` here.
 *
 * Coordinates are `f32` in the source. Here they are of a type parameter
 * `C`, and `parseCoord` stands for `str::parse::<f32>`.
 */
module Object {
  import opened Wrappers
  import opened Text

  datatype Vec3<C> = Vec3(x: C, y: C, z: C)
  datatype Vec2<C> = Vec2(x: C, y: C)

  /** Three parallel streams: the raw tables while parsing, the per-corner output at the end. */
  datatype Attributes<C> = Attributes(vertices: seq<Vec3<C>>, uvs: seq<Vec2<C>>, normals: seq<Vec3<C>>)

  /** `vertex_indices`, `uv_indices` and `normal_indices`: the 1-based references collected from `f` lines. */
  datatype Refs = Refs(vertex: seq<nat>, uv: seq<nat>, normal: seq<nat>)

  /** All that the first loop of `load` has accumulated. */
  datatype Accum<C> = Accum(temp: Attributes<C>, refs: Refs)

  /** One `p/t/n` token of a face. */
  datatype Corner = Corner(vertex: nat, uv: nat, normal: nat)

  /** What one line contributes. */
  datatype Record<C> =
    | V(p: Vec3<C>)
    | Vt(t: Vec2<C>)
    | Vn(n: Vec3<C>)
    | F(c0: Corner, c1: Corner, c2: Corner)
    | Other

  /** The panics of the first loop, per line. Corners and fields count from 0. */
  datatype LineFault =
    | EmptyLine                             // no first token
    | BadCoord(field: nat)                  // a coordinate `unwrap` on `None`
    | MissingCorner(corner: nat)            // `groupN.unwrap()` on `None`
    | MissingField(corner: nat, field: nat) // `groupN_str[k]` past the end
    | BadIndex(corner: nat, field: nat)     // `parse::<usize>().unwrap()` on an error

  datatype Attribute = Vertex | Uv | Normal

  /** Why `load` does not return: a bad line (0-based line number), or an index that resolves to nothing. */
  datatype LoadError =
    | BadLine(line: nat, fault: LineFault)
    | IndexOutOfRange(corner: nat, attribute: Attribute, index: nat)

  /** The tag of a line whose first token is none of `v`, `vt`, `vn`, `f`. */
  predicate IsOtherTag(tag: string) {
    tag != "v" && tag != "vt" && tag != "vn" && tag != "f"
  }

  /**
   * The payload `load` rebuilds from the tokens after the tag: each token
   * followed by a newline. Splitting it on whitespace gives the tokens back.
   */
  function Payload(words: seq<string>): (r: string)
    ensures (forall w :: w in words ==> w != [] && NoSep(w, IsWhitespace)) ==> Words(r) == words
  {
    if words == [] then
      NoWords([]);
      []
    else
      var rest := Payload(words[1..]);
      assert words[0] in words;
      assert forall w :: w in words[1..] ==> w in words;
      WordsAtSpace(words[0], '\n', rest);
      if words[0] != [] && NoSep(words[0], IsWhitespace) then
        OneWord(words[0]);
        words[0] + "\n" + rest
      else
        words[0] + "\n" + rest
  }

  /**
   * The `scan!` macro: split `s` at every whitespace character and parse the
   * first `n` pieces with `parse`; `None` where there is no such piece or it
   * does not parse.
   */
  function Scan<T>(s: string, n: nat, parse: string -> Option<T>): (r: seq<Option<T>>)
    ensures |r| == n
  {
    var pieces := Split(s, IsWhitespace);
    seq(n, k requires 0 <= k < n => if k < |pieces| then parse(pieces[k]) else None)
  }

  /** `str::parse::<String>`, which always succeeds. */
  function AsString(s: string): Option<string> {
    Some(s)
  }

  /** The payload of a `v` or `vn` line: three coordinates, unwrapped in order. */
  function ParseVec3<C>(payload: string, parseCoord: string -> Option<C>): (r: Result<Vec3<C>, LineFault>)
    ensures r.Err? ==> r.error.BadCoord? && r.error.field < 3
  {
    var xyz := Scan(payload, 3, parseCoord);
    if xyz[0].None? then Err(BadCoord(0))
    else if xyz[1].None? then Err(BadCoord(1))
    else if xyz[2].None? then Err(BadCoord(2))
    else Ok(Vec3(xyz[0].value, xyz[1].value, xyz[2].value))
  }

  /** The payload of a `vt` line: two coordinates, unwrapped in order. */
  function ParseVec2<C>(payload: string, parseCoord: string -> Option<C>): (r: Result<Vec2<C>, LineFault>)
    ensures r.Err? ==> r.error.BadCoord? && r.error.field < 2
  {
    var xy := Scan(payload, 2, parseCoord);
    if xy[0].None? then Err(BadCoord(0))
    else if xy[1].None? then Err(BadCoord(1))
    else Ok(Vec2(xy[0].value, xy[1].value))
  }

  /**
   * One face group: unwrap it, split it on `/`, then read fields 0, 1 and 2
   * in turn, each first indexed and then parsed as a `usize`.
   */
  function ParseCorner(group: Option<string>, corner: nat): (r: Result<Corner, LineFault>)
    ensures r.Err? ==> (r.error.MissingCorner? || r.error.MissingField? || r.error.BadIndex?) && r.error.corner == corner
  {
    if group.None? then Err(MissingCorner(corner))
    else
      var fields := Split(group.value, IsSlash);
      var n0 := ParseUsize(fields[0]);
      if n0.None? then Err(BadIndex(corner, 0))
      else if |fields| < 2 then Err(MissingField(corner, 1))
      else
        var n1 := ParseUsize(fields[1]);
        if n1.None? then Err(BadIndex(corner, 1))
        else if |fields| < 3 then Err(MissingField(corner, 2))
        else
          var n2 := ParseUsize(fields[2]);
          if n2.None? then Err(BadIndex(corner, 2))
          else Ok(Corner(n0.value, n1.value, n2.value))
  }

  /** The payload of an `f` line: three groups, handled in order. */
  function ParseFace<C>(payload: string): (r: Result<Record<C>, LineFault>)
    ensures r.Ok? ==> r.value.F?
    ensures r.Err? ==> (r.error.MissingCorner? || r.error.MissingField? || r.error.BadIndex?) && r.error.corner < 3
  {
    var groups := Scan(payload, 3, AsString);
    var c0 := ParseCorner(groups[0], 0);
    if c0.Err? then Err(c0.error)
    else
      var c1 := ParseCorner(groups[1], 1);
      if c1.Err? then Err(c1.error)
      else
        var c2 := ParseCorner(groups[2], 2);
        if c2.Err? then Err(c2.error)
        else Ok(F(c0.value, c1.value, c2.value))
  }

  /**
   * The body of the first loop of `load` for one line, as a value. An
   * accepted line has a first token, and the kind of its record is the one
   * its tag names.
   */
  function ParseLine<C>(line: string, parseCoord: string -> Option<C>): (r: Result<Record<C>, LineFault>)
    ensures r.Ok? ==> var words := Words(line);
      && words != []
      && (r.value.V? <==> words[0] == "v")
      && (r.value.Vt? <==> words[0] == "vt")
      && (r.value.Vn? <==> words[0] == "vn")
      && (r.value.F? <==> words[0] == "f")
      && (r.value.Other? <==> IsOtherTag(words[0]))
  {
    var words := Words(line);
    if words == [] then Err(EmptyLine)
    else
      var payload := Payload(words[1..]);
      if words[0] == "v" then
        match ParseVec3(payload, parseCoord)
        case Ok(p) => Ok(V(p))
        case Err(e) => Err(e)
      else if words[0] == "vt" then
        match ParseVec2(payload, parseCoord)
        case Ok(t) => Ok(Vt(t))
        case Err(e) => Err(e)
      else if words[0] == "vn" then
        match ParseVec3(payload, parseCoord)
        case Ok(n) => Ok(Vn(n))
        case Err(e) => Err(e)
      else if words[0] == "f" then ParseFace(payload)
      else Ok(Other)
  }

  /**
   * The six pushes a record makes, or none: every table and index list only
   * grows at its end, a face grows each index list by its three corners, and
   * the index lists stay in lockstep.
   */
  function Apply<C>(acc: Accum<C>, rec: Record<C>): (r: Accum<C>)
    ensures acc.temp.vertices <= r.temp.vertices && acc.temp.uvs <= r.temp.uvs && acc.temp.normals <= r.temp.normals
    ensures acc.refs.vertex <= r.refs.vertex && acc.refs.uv <= r.refs.uv && acc.refs.normal <= r.refs.normal
    ensures |r.refs.vertex| == |acc.refs.vertex| + (if rec.F? then 3 else 0)
    ensures Lockstep(acc.refs) ==> Lockstep(r.refs)
    ensures rec.Other? ==> r == acc
  {
    var t := acc.temp;
    var r := acc.refs;
    match rec
    case V(p) => acc.(temp := t.(vertices := t.vertices + [p]))
    case Vt(uv) => acc.(temp := t.(uvs := t.uvs + [uv]))
    case Vn(n) => acc.(temp := t.(normals := t.normals + [n]))
    case F(c0, c1, c2) =>
      acc.(refs := Refs(r.vertex + [c0.vertex, c1.vertex, c2.vertex],
                        r.uv + [c0.uv, c1.uv, c2.uv],
                        r.normal + [c0.normal, c1.normal, c2.normal]))
    case Other => acc
  }

  /** The three index lists have one entry per face corner each. */
  predicate Lockstep(refs: Refs) {
    |refs.uv| == |refs.vertex| && |refs.normal| == |refs.vertex|
  }

  /** A per-line reader: what the body of the first loop of `load` makes of one line. */
  type LineReader<C> = string -> Result<Record<C>, LineFault>

  /** The number of lines that `step` reads as a face. */
  function FaceRecords<C>(lines: seq<string>, step: LineReader<C>): nat {
    if lines == [] then 0
    else
      var last := |lines| - 1;
      var r := step(lines[last]);
      FaceRecords(lines[..last], step) + (if r.Ok? && r.value.F? then 1 else 0)
  }

  /**
   * The first loop of `load` over `lines`, each line read by `step`: it stops
   * at the first bad line, and otherwise it has pushed three references per
   * face onto each index list.
   */
  function Fold<C>(lines: seq<string>, step: LineReader<C>): (r: Result<Accum<C>, LoadError>)
    ensures r.Ok? ==> Lockstep(r.value.refs) && |r.value.refs.vertex| == 3 * FaceRecords(lines, step)
    ensures r.Err? ==> r.error.BadLine? && r.error.line < |lines|
  {
    if lines == [] then Ok(Accum(Attributes([], [], []), Refs([], [], [])))
    else
      var last := |lines| - 1;
      FoldStep(Fold(lines[..last], step), lines[last], last, step)
  }

  /** One turn of the first loop: line number `n` read by `step` after the earlier lines gave `sofar`. */
  function FoldStep<C>(sofar: Result<Accum<C>, LoadError>, line: string, n: nat, step: LineReader<C>): Result<Accum<C>, LoadError> {
    match sofar
    case Err(e) => Err(e)
    case Ok(acc) =>
      match step(line)
      case Err(f) => Err(BadLine(n, f))
      case Ok(rec) => Ok(Apply(acc, rec))
  }

  /** Folding one more line is one more turn of the loop. */
  lemma FoldSnoc<C>(lines: seq<string>, line: string, step: LineReader<C>)
    ensures Fold(lines + [line], step) == FoldStep(Fold(lines, step), line, |lines|, step)
  {
    assert (lines + [line])[..|lines|] == lines;
  }

  /** `ParseLine` with its coordinate parser fixed. */
  function Reader<C>(parseCoord: string -> Option<C>): LineReader<C> {
    line => ParseLine(line, parseCoord)
  }

  /** The first loop of `load`. */
  function Parse<C>(lines: seq<string>, parseCoord: string -> Option<C>): Result<Accum<C>, LoadError> {
    Fold(lines, Reader(parseCoord))
  }

  /** Once a prefix of the input has failed, the whole input fails in the same way. */
  lemma {:induction false} FoldErrPersists<C>(lines: seq<string>, i: nat, step: LineReader<C>)
    requires i <= |lines|
    requires Fold(lines[..i], step).Err?
    ensures Fold(lines, step) == Fold(lines[..i], step)
  {
    if i < |lines| {
      var last := |lines| - 1;
      assert lines[..last][..i] == lines[..i];
      FoldErrPersists(lines[..last], i, step);
    } else {
      assert lines[..i] == lines;
    }
  }

  /** `table[index - 1]` for a `usize` index: `None` where the subtraction underflows or the index is past the end. */
  function Resolve<T>(table: seq<T>, index: nat): (r: Option<T>)
    ensures r.Some? <==> 1 <= index <= |table|
    ensures r.Some? ==> r.value == table[index - 1]
  {
    if index == 0 || index > |table| then None else Some(table[index - 1])
  }

  /** The second loop of `load` over the first `n` corners: push the resolved vertex, uv and normal, in that order. */
  function Flatten<C>(temp: Attributes<C>, refs: Refs, n: nat): (r: Result<Attributes<C>, LoadError>)
    requires Lockstep(refs) && n <= |refs.vertex|
    ensures r.Ok? ==> |r.value.vertices| == n && |r.value.uvs| == n && |r.value.normals| == n
    ensures r.Err? ==> r.error.IndexOutOfRange? && r.error.corner < n
  {
    if n == 0 then Ok(Attributes([], [], []))
    else
      var k := n - 1;
      match Flatten(temp, refs, k)
      case Err(e) => Err(e)
      case Ok(out) =>
        var v := Resolve(temp.vertices, refs.vertex[k]);
        var t := Resolve(temp.uvs, refs.uv[k]);
        var nm := Resolve(temp.normals, refs.normal[k]);
        if v.None? then Err(IndexOutOfRange(k, Vertex, refs.vertex[k]))
        else if t.None? then Err(IndexOutOfRange(k, Uv, refs.uv[k]))
        else if nm.None? then Err(IndexOutOfRange(k, Normal, refs.normal[k]))
        else Ok(Attributes(out.vertices + [v.value], out.uvs + [t.value], out.normals + [nm.value]))
  }

  /**
   * Both loops of `load`, each line read by `step`: the first error if any.
   * No index is resolved before every line is read, and the three outputs
   * have one entry per face corner.
   */
  function LoadWith<C>(lines: seq<string>, step: LineReader<C>): (r: Result<Attributes<C>, LoadError>)
    ensures r.Ok? ==> Fold(lines, step).Ok?
    ensures r.Ok? ==> var n := |Fold(lines, step).value.refs.vertex|;
      |r.value.vertices| == n && |r.value.uvs| == n && |r.value.normals| == n
    ensures r.Err? && r.error.BadLine? ==> Fold(lines, step) == Err(r.error) && r.error.line < |lines|
    ensures r.Err? && r.error.IndexOutOfRange? ==>
      Fold(lines, step).Ok? && r.error.corner < |Fold(lines, step).value.refs.vertex|
  {
    match Fold(lines, step)
    case Err(e) => Err(e)
    case Ok(acc) => Flatten(acc.temp, acc.refs, |acc.refs.vertex|)
  }

  /** What `load` returns for the given lines. */
  function LoadSpec<C>(lines: seq<string>, parseCoord: string -> Option<C>): Result<Attributes<C>, LoadError> {
    LoadWith(lines, Reader(parseCoord))
  }

  /**
   * The body of the first loop of `load` up to its pushes: split the line,
   * dispatch on its tag and unwrap the payload. For a face the three groups
   * go into the fixed arrays `vertexIndex`, `uvIndex` and `normalIndex`.
   */
  method ReadRecord<C>(line: string, parseCoord: string -> Option<C>) returns (r: Result<Record<C>, LineFault>)
    ensures r == ParseLine(line, parseCoord)
  {
    var words := Words(line);
    if words == [] {
      return Err(EmptyLine);
    }
    var lineType := words[0];
    var payload := Payload(words[1..]);

    if lineType == "v" {
      var xyz := Scan(payload, 3, parseCoord);
      if xyz[0].None? {
        return Err(BadCoord(0));
      }
      if xyz[1].None? {
        return Err(BadCoord(1));
      }
      if xyz[2].None? {
        return Err(BadCoord(2));
      }
      r := Ok(V(Vec3(xyz[0].value, xyz[1].value, xyz[2].value)));
    } else if lineType == "vt" {
      var xy := Scan(payload, 2, parseCoord);
      if xy[0].None? {
        return Err(BadCoord(0));
      }
      if xy[1].None? {
        return Err(BadCoord(1));
      }
      r := Ok(Vt(Vec2(xy[0].value, xy[1].value)));
    } else if lineType == "vn" {
      var xyz := Scan(payload, 3, parseCoord);
      if xyz[0].None? {
        return Err(BadCoord(0));
      }
      if xyz[1].None? {
        return Err(BadCoord(1));
      }
      if xyz[2].None? {
        return Err(BadCoord(2));
      }
      r := Ok(Vn(Vec3(xyz[0].value, xyz[1].value, xyz[2].value)));
    } else if lineType == "f" {
      var vertexIndex, uvIndex, normalIndex := new nat[3], new nat[3], new nat[3];
      var groups := Scan(payload, 3, AsString);
      var group1 := ParseCorner(groups[0], 0);
      if group1.Err? {
        return Err(group1.error);
      }
      vertexIndex[0], uvIndex[0], normalIndex[0] := group1.value.vertex, group1.value.uv, group1.value.normal;
      var group2 := ParseCorner(groups[1], 1);
      if group2.Err? {
        return Err(group2.error);
      }
      vertexIndex[1], uvIndex[1], normalIndex[1] := group2.value.vertex, group2.value.uv, group2.value.normal;
      var group3 := ParseCorner(groups[2], 2);
      if group3.Err? {
        return Err(group3.error);
      }
      vertexIndex[2], uvIndex[2], normalIndex[2] := group3.value.vertex, group3.value.uv, group3.value.normal;
      r := Ok(F(Corner(vertexIndex[0], uvIndex[0], normalIndex[0]),
                Corner(vertexIndex[1], uvIndex[1], normalIndex[1]),
                Corner(vertexIndex[2], uvIndex[2], normalIndex[2])));
    } else {
      r := Ok(Other);
    }
  }

  /** The first loop of `load`: push every record onto its table or index lists, in file order. */
  method ReadLines<C>(lines: seq<string>, parseCoord: string -> Option<C>) returns (r: Result<Accum<C>, LoadError>)
    ensures r == Parse(lines, parseCoord)
  {
    var vertexIndices, uvIndices, normalIndices := [], [], [];
    var tempVertices, tempUvs, tempNormals := [], [], [];

    var i := 0;
    while i < |lines|
      invariant 0 <= i <= |lines|
      invariant Parse(lines[..i], parseCoord)
        == Ok(Accum(Attributes(tempVertices, tempUvs, tempNormals), Refs(vertexIndices, uvIndices, normalIndices)))
    {
      assert lines[..i + 1][..i] == lines[..i];
      var rec := ReadRecord(lines[i], parseCoord);
      if rec.Err? {
        FoldErrPersists(lines, i + 1, Reader(parseCoord));
        return Err(BadLine(i, rec.error));
      }
      match rec.value {
        case V(p) =>
          tempVertices := tempVertices + [p];
        case Vt(uv) =>
          tempUvs := tempUvs + [uv];
        case Vn(n) =>
          tempNormals := tempNormals + [n];
        case F(c0, c1, c2) =>
          vertexIndices := vertexIndices + [c0.vertex, c1.vertex, c2.vertex];
          uvIndices := uvIndices + [c0.uv, c1.uv, c2.uv];
          normalIndices := normalIndices + [c0.normal, c1.normal, c2.normal];
        case Other =>
      }
      i := i + 1;
    }
    assert lines[..i] == lines;
    r := Ok(Accum(Attributes(tempVertices, tempUvs, tempNormals), Refs(vertexIndices, uvIndices, normalIndices)));
  }

  /** The second loop of `load`: resolve every corner against the raw tables, in order. */
  method FlattenAll<C>(temp: Attributes<C>, refs: Refs) returns (r: Result<Attributes<C>, LoadError>)
    requires Lockstep(refs)
    ensures r == Flatten(temp, refs, |refs.vertex|)
  {
    var vertices, uvs, normals := [], [], [];
    var k := 0;
    while k < |refs.vertex|
      invariant 0 <= k <= |refs.vertex|
      invariant Flatten(temp, refs, k) == Ok(Attributes(vertices, uvs, normals))
    {
      var vertexIndex := refs.vertex[k];
      var uvIndex := refs.uv[k];
      var normalIndex := refs.normal[k];
      if vertexIndex == 0 || vertexIndex > |temp.vertices| {
        FlattenErrPersists(temp, refs, k + 1, |refs.vertex|);
        return Err(IndexOutOfRange(k, Vertex, vertexIndex));
      }
      vertices := vertices + [temp.vertices[vertexIndex - 1]];
      if uvIndex == 0 || uvIndex > |temp.uvs| {
        FlattenErrPersists(temp, refs, k + 1, |refs.vertex|);
        return Err(IndexOutOfRange(k, Uv, uvIndex));
      }
      uvs := uvs + [temp.uvs[uvIndex - 1]];
      if normalIndex == 0 || normalIndex > |temp.normals| {
        FlattenErrPersists(temp, refs, k + 1, |refs.vertex|);
        return Err(IndexOutOfRange(k, Normal, normalIndex));
      }
      normals := normals + [temp.normals[normalIndex - 1]];
      k := k + 1;
    }
    r := Ok(Attributes(vertices, uvs, normals));
  }

  /** `load`, with the file already split into lines: both loops, the first error if any. */
  method Load<C>(lines: seq<string>, parseCoord: string -> Option<C>) returns (r: Result<Attributes<C>, LoadError>)
    ensures r == LoadSpec(lines, parseCoord)
  {
    var parsed := ReadLines(lines, parseCoord);
    if parsed.Err? {
      return Err(parsed.error);
    }
    r := FlattenAll(parsed.value.temp, parsed.value.refs);
  }

  /** Once the first `m` corners have failed to resolve, the first `n >= m` fail in the same way. */
  lemma {:induction false} FlattenErrPersists<C>(temp: Attributes<C>, refs: Refs, m: nat, n: nat)
    requires Lockstep(refs) && m <= n <= |refs.vertex|
    requires Flatten(temp, refs, m).Err?
    ensures Flatten(temp, refs, n) == Flatten(temp, refs, m)
  {
    if m < n {
      FlattenErrPersists(temp, refs, m, n - 1);
    }
  }
}
