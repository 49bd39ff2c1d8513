/**
 * What `load` promises about a whole file, proved about the model in module
 * Object: how the raw tables and index lists are collected in file order,
 * how indices resolve, which lines change nothing, which abort the load,
 * and why an `f` line may refer to data that comes after it.
 */
module LoadProps {
  import opened Wrappers
  import opened Text
  import opened Object

  // ---------------------------------------------------------------------
  // Flattening

  /** All three 1-based indices of corner `k` name an entry of their table. */
  predicate Resolves<C>(temp: Attributes<C>, refs: Refs, k: nat)
    requires Lockstep(refs) && k < |refs.vertex|
  {
    1 <= refs.vertex[k] <= |temp.vertices| && 1 <= refs.uv[k] <= |temp.uvs| && 1 <= refs.normal[k] <= |temp.normals|
  }

  /**
   * Flattening succeeds exactly when every index resolves, and then the k-th
   * output vertex, uv and normal are the entries its 1-based indices name.
   */
  lemma {:induction false} FlattenResolves<C>(temp: Attributes<C>, refs: Refs, n: nat)
    requires Lockstep(refs) && n <= |refs.vertex|
    ensures Flatten(temp, refs, n).Ok? <==> forall k :: 0 <= k < n ==> Resolves(temp, refs, k)
    ensures Flatten(temp, refs, n).Ok? ==>
      var out := Flatten(temp, refs, n).value;
      && |out.vertices| == n && |out.uvs| == n && |out.normals| == n
      && forall k :: 0 <= k < n ==>
           && Resolves(temp, refs, k)
           && out.vertices[k] == temp.vertices[refs.vertex[k] - 1]
           && out.uvs[k] == temp.uvs[refs.uv[k] - 1]
           && out.normals[k] == temp.normals[refs.normal[k] - 1]
  {
    if n > 0 {
      FlattenResolves(temp, refs, n - 1);
      assert (forall k :: 0 <= k < n ==> Resolves(temp, refs, k))
        <==> (forall k :: 0 <= k < n - 1 ==> Resolves(temp, refs, k)) && Resolves(temp, refs, n - 1);
    }
  }

  /** The index corner `k` holds for `attribute`. */
  function IndexAt(refs: Refs, attribute: Attribute, k: nat): nat
    requires Lockstep(refs) && k < |refs.vertex|
  {
    match attribute
    case Vertex => refs.vertex[k]
    case Uv => refs.uv[k]
    case Normal => refs.normal[k]
  }

  /** The length of the table `attribute` indexes. */
  function TableSize<C>(temp: Attributes<C>, attribute: Attribute): nat {
    match attribute
    case Vertex => |temp.vertices|
    case Uv => |temp.uvs|
    case Normal => |temp.normals|
  }

  /**
   * A failed flattening names the first corner that does not resolve and,
   * at that corner, the first of vertex, uv, normal whose index is 0 or past
   * the end of its table: the index is reported, never clamped.
   */
  lemma {:induction false} FlattenFirstFailure<C>(temp: Attributes<C>, refs: Refs, n: nat)
    requires Lockstep(refs) && n <= |refs.vertex|
    requires Flatten(temp, refs, n).Err?
    ensures var e := Flatten(temp, refs, n).error;
      && e.IndexOutOfRange? && e.corner < n
      && (forall k :: 0 <= k < e.corner ==> Resolves(temp, refs, k))
      && e.index == IndexAt(refs, e.attribute, e.corner)
      && (e.index == 0 || e.index > TableSize(temp, e.attribute))
      && (e.attribute != Vertex ==> 1 <= refs.vertex[e.corner] <= |temp.vertices|)
      && (e.attribute == Normal ==> 1 <= refs.uv[e.corner] <= |temp.uvs|)
  {
    var k := n - 1;
    if Flatten(temp, refs, k).Err? {
      FlattenFirstFailure(temp, refs, k);
    } else {
      FlattenResolves(temp, refs, k);
    }
  }

  // ---------------------------------------------------------------------
  // The records of a file, collected per kind

  /** `step` reads every line without a fault. */
  predicate AllRead<C>(lines: seq<string>, step: LineReader<C>) {
    forall i :: 0 <= i < |lines| ==> step(lines[i]).Ok?
  }

  /** The record `step` reads from each line, in file order. */
  function RecordsOf<C>(lines: seq<string>, step: LineReader<C>): (recs: seq<Record<C>>)
    requires AllRead(lines, step)
    ensures |recs| == |lines|
  {
    seq(|lines|, i requires 0 <= i < |lines| => step(lines[i]).value)
  }

  /** The concatenation of `f` of every record, in order. */
  function Gather<C, T>(recs: seq<Record<C>>, f: Record<C> -> seq<T>): seq<T> {
    if recs == [] then [] else f(recs[0]) + Gather(recs[1..], f)
  }

  function VertexOf<C>(r: Record<C>): seq<Vec3<C>> {
    if r.V? then [r.p] else []
  }

  function UvOf<C>(r: Record<C>): seq<Vec2<C>> {
    if r.Vt? then [r.t] else []
  }

  function NormalOf<C>(r: Record<C>): seq<Vec3<C>> {
    if r.Vn? then [r.n] else []
  }

  function VertexRefsOf<C>(r: Record<C>): seq<nat> {
    if r.F? then [r.c0.vertex, r.c1.vertex, r.c2.vertex] else []
  }

  function UvRefsOf<C>(r: Record<C>): seq<nat> {
    if r.F? then [r.c0.uv, r.c1.uv, r.c2.uv] else []
  }

  function NormalRefsOf<C>(r: Record<C>): seq<nat> {
    if r.F? then [r.c0.normal, r.c1.normal, r.c2.normal] else []
  }

  /**
   * The tables and index lists described per kind: the `v` records in order,
   * the `vt` records in order, the `vn` records in order, and the corners of
   * the faces in order, whatever the interleaving of the kinds.
   */
  function Collect<C>(recs: seq<Record<C>>): (acc: Accum<C>)
    ensures Lockstep(acc.refs)
  {
    RefsLockstep(recs);
    Accum(Attributes(Gather(recs, VertexOf), Gather(recs, UvOf), Gather(recs, NormalOf)),
          Refs(Gather(recs, VertexRefsOf), Gather(recs, UvRefsOf), Gather(recs, NormalRefsOf)))
  }

  lemma {:induction false} RefsLockstep<C>(recs: seq<Record<C>>)
    ensures |Gather(recs, UvRefsOf)| == |Gather(recs, VertexRefsOf)| == |Gather(recs, NormalRefsOf)|
  {
    if recs != [] {
      RefsLockstep(recs[1..]);
    }
  }

  lemma {:induction false} GatherSnoc<C, T>(recs: seq<Record<C>>, r: Record<C>, f: Record<C> -> seq<T>)
    ensures Gather(recs + [r], f) == Gather(recs, f) + f(r)
  {
    if recs != [] {
      assert (recs + [r])[1..] == recs[1..] + [r];
      GatherSnoc(recs[1..], r, f);
    } else {
      assert [r][1..] == [];
    }
  }

  /** Collecting one more record is what the first loop of `load` does with it. */
  lemma CollectSnoc<C>(recs: seq<Record<C>>, r: Record<C>)
    ensures Collect(recs + [r]) == Apply(Collect(recs), r)
  {
    GatherSnoc(recs, r, VertexOf);
    GatherSnoc(recs, r, UvOf);
    GatherSnoc(recs, r, NormalOf);
    GatherSnoc(recs, r, VertexRefsOf);
    GatherSnoc(recs, r, UvRefsOf);
    GatherSnoc(recs, r, NormalRefsOf);
    var before := Collect(recs);
    var after := Collect(recs + [r]);
    assert after.temp.vertices == before.temp.vertices + VertexOf(r);
    assert after.temp.uvs == before.temp.uvs + UvOf(r);
    assert after.temp.normals == before.temp.normals + NormalOf(r);
    assert after.refs.vertex == before.refs.vertex + VertexRefsOf(r);
    assert after.refs.uv == before.refs.uv + UvRefsOf(r);
    assert after.refs.normal == before.refs.normal + NormalRefsOf(r);
  }

  /**
   * The first loop of `load` succeeds exactly when every line is read
   * without a fault, and then it has collected each kind of record in file
   * order. This holds for any line reader, `ParseLine` among them.
   */
  lemma {:induction false} FoldCollects<C>(lines: seq<string>, step: LineReader<C>)
    ensures Fold(lines, step).Ok? <==> AllRead(lines, step)
    ensures Fold(lines, step).Ok? ==> Fold(lines, step).value == Collect(RecordsOf(lines, step))
  {
    if lines != [] {
      var last := |lines| - 1;
      var front := lines[..last];
      FoldCollects(front, step);
      assert forall i :: 0 <= i < last ==> front[i] == lines[i];
      if AllRead(lines, step) {
        assert AllRead(front, step);
        assert RecordsOf(lines, step) == RecordsOf(front, step) + [step(lines[last]).value];
        CollectSnoc(RecordsOf(front, step), step(lines[last]).value);
      } else if AllRead(front, step) {
        assert step(lines[last]).Err?;
      }
    } else {
      assert RecordsOf(lines, step) == [];
    }
  }

  /** A failed first loop names the first line that is not read, with that line's fault. */
  lemma {:induction false} FoldFirstFailure<C>(lines: seq<string>, step: LineReader<C>)
    requires Fold(lines, step).Err?
    ensures var e := Fold(lines, step).error;
      && e.BadLine? && e.line < |lines|
      && step(lines[e.line]) == Err(e.fault)
      && forall j :: 0 <= j < e.line ==> step(lines[j]).Ok?
  {
    var last := |lines| - 1;
    var front := lines[..last];
    assert forall i :: 0 <= i < last ==> front[i] == lines[i];
    if Fold(front, step).Err? {
      FoldFirstFailure(front, step);
    } else {
      FoldCollects(front, step);
    }
  }

  // ---------------------------------------------------------------------
  // The whole of `load`

  /** The first word of a line is `f`. */
  predicate IsFaceLine(line: string) {
    var words := Words(line);
    words != [] && words[0] == "f"
  }

  /** The number of lines whose tag is `f`. */
  function FaceCount(lines: seq<string>): nat {
    if lines == [] then 0
    else FaceCount(lines[..|lines| - 1]) + (if IsFaceLine(lines[|lines| - 1]) then 1 else 0)
  }

  lemma {:induction false} FaceRecordsByTag<C>(lines: seq<string>, step: LineReader<C>)
    requires AllRead(lines, step)
    requires forall l :: step(l).Ok? ==> (step(l).value.F? <==> IsFaceLine(l))
    ensures FaceRecords(lines, step) == FaceCount(lines)
  {
    if lines != [] {
      var last := |lines| - 1;
      assert forall i :: 0 <= i < last ==> lines[..last][i] == lines[i];
      FaceRecordsByTag(lines[..last], step);
    }
  }

  /** The three returned sequences have one entry per face corner: three per `f` line. */
  lemma LoadLengths<C>(lines: seq<string>, parseCoord: string -> Option<C>)
    requires LoadSpec(lines, parseCoord).Ok?
    ensures var out := LoadSpec(lines, parseCoord).value;
      |out.vertices| == 3 * FaceCount(lines) && |out.uvs| == 3 * FaceCount(lines) && |out.normals| == 3 * FaceCount(lines)
  {
    var step := Reader(parseCoord);
    var acc := Fold(lines, step).value;
    FlattenResolves(acc.temp, acc.refs, |acc.refs.vertex|);
    FoldCollects(lines, step);
    forall l | step(l).Ok? ensures step(l).value.F? <==> IsFaceLine(l) {
      assert step(l) == ParseLine(l, parseCoord);
    }
    FaceRecordsByTag(lines, step);
  }

  /**
   * `load` returns exactly when every line is accepted and every corner
   * resolves, and then the k-th output vertex, uv and normal are the `v`,
   * `vt` and `vn` records the k-th face corner names, counting from 1 in
   * file order. This holds for any line reader, `ParseLine` among them.
   */
  lemma LoadResolves<C>(lines: seq<string>, step: LineReader<C>)
    ensures var r := LoadWith(lines, step);
      r.Ok? <==> AllRead(lines, step)
                 && var acc := Collect(RecordsOf(lines, step));
                    forall k :: 0 <= k < |acc.refs.vertex| ==> Resolves(acc.temp, acc.refs, k)
    ensures var r := LoadWith(lines, step);
      r.Ok? ==>
        var acc := Collect(RecordsOf(lines, step));
        && |r.value.vertices| == |acc.refs.vertex| && |r.value.uvs| == |acc.refs.vertex|
        && |r.value.normals| == |acc.refs.vertex|
        && forall k :: 0 <= k < |acc.refs.vertex| ==>
             && Resolves(acc.temp, acc.refs, k)
             && r.value.vertices[k] == acc.temp.vertices[acc.refs.vertex[k] - 1]
             && r.value.uvs[k] == acc.temp.uvs[acc.refs.uv[k] - 1]
             && r.value.normals[k] == acc.temp.normals[acc.refs.normal[k] - 1]
  {
    FoldCollects(lines, step);
    if AllRead(lines, step) {
      var acc := Collect(RecordsOf(lines, step));
      FlattenResolves(acc.temp, acc.refs, |acc.refs.vertex|);
      assert LoadWith(lines, step) == Flatten(acc.temp, acc.refs, |acc.refs.vertex|);
    }
  }

  // ---------------------------------------------------------------------
  // Lines that change nothing, and lines that abort

  /** Moves the line number of a parse failure at or after line `at` one line down. */
  function ShiftLines<T>(r: Result<T, LoadError>, at: nat): Result<T, LoadError> {
    if r.Err? && r.error.BadLine? && r.error.line >= at then Err(BadLine(r.error.line + 1, r.error.fault)) else r
  }

  lemma {:induction false} FoldSkipsOther<C>(a: seq<string>, l: string, b: seq<string>, step: LineReader<C>)
    requires step(l) == Ok(Other)
    ensures Fold(a + [l] + b, step) == ShiftLines(Fold(a + b, step), |a|)
  {
    if b == [] {
      assert a + [l] + b == a + [l] && a + b == a;
      FoldSnoc(a, l, step);
    } else {
      var b' := b[..|b| - 1];
      var x := b[|b| - 1];
      assert a + [l] + b == (a + [l] + b') + [x];
      assert a + b == (a + b') + [x];
      calc {
        Fold(a + [l] + b, step);
        { FoldSnoc(a + [l] + b', x, step); }
        FoldStep(Fold(a + [l] + b', step), x, |a + [l] + b'|, step);
        { FoldSkipsOther(a, l, b', step); }
        FoldStep(ShiftLines(Fold(a + b', step), |a|), x, |a + b'| + 1, step);
        { ShiftStep(Fold(a + b', step), x, |a + b'|, |a|, step); }
        ShiftLines(FoldStep(Fold(a + b', step), x, |a + b'|, step), |a|);
        { FoldSnoc(a + b', x, step); }
        ShiftLines(Fold(a + b, step), |a|);
      }
    }
  }

  /** One turn of the loop commutes with moving failures at or after line `at` one line down. */
  lemma ShiftStep<C>(sofar: Result<Accum<C>, LoadError>, x: string, n: nat, at: nat, step: LineReader<C>)
    requires at <= n
    ensures FoldStep(ShiftLines(sofar, at), x, n + 1, step) == ShiftLines(FoldStep(sofar, x, n, step), at)
  {
  }

  /**
   * Inserting a line that `step` reads as `Other` (for `ParseLine`, one whose
   * tag is none of `v`, `vt`, `vn`, `f`: a comment, an object or group name,
   * a material directive) changes nothing but the line number of a later
   * bad line.
   */
  lemma IgnoredLine<C>(a: seq<string>, l: string, b: seq<string>, step: LineReader<C>)
    requires step(l) == Ok(Other)
    ensures LoadWith(a + [l] + b, step) == ShiftLines(LoadWith(a + b, step), |a|)
  {
    FoldSkipsOther(a, l, b, step);
    if Fold(a + b, step).Ok? {
      assert Fold(a + [l] + b, step) == Fold(a + b, step);
    } else {
      assert LoadWith(a + b, step) == Err(Fold(a + b, step).error);
    }
  }

  /** A blank or whitespace-only line is not skipped: the load fails there, unless an earlier line failed. */
  lemma BlankLineAborts<C>(a: seq<string>, l: string, b: seq<string>, parseCoord: string -> Option<C>)
    requires forall c :: c in l ==> IsWhitespace(c)
    requires Parse(a, parseCoord).Ok?
    ensures LoadSpec(a + [l] + b, parseCoord) == Err(BadLine(|a|, EmptyLine))
  {
    NoWords(l);
    var lines := a + [l] + b;
    assert lines[..|a| + 1][..|a|] == a;
    assert lines[..|a| + 1][|a|] == l;
    FoldErrPersists(lines, |a| + 1, Reader(parseCoord));
  }

  // ---------------------------------------------------------------------
  // Forward references

  lemma {:induction false} FoldSameFrom<C>(p: seq<string>, q: seq<string>, b: seq<string>, step: LineReader<C>)
    requires |p| == |q| && Fold(p, step) == Fold(q, step)
    ensures Fold(p + b, step) == Fold(q + b, step)
  {
    if b == [] {
      assert p + b == p && q + b == q;
    } else {
      var b' := b[..|b| - 1];
      var x := b[|b| - 1];
      assert p + b == (p + b') + [x];
      assert q + b == (q + b') + [x];
      calc {
        Fold(p + b, step);
        { FoldSnoc(p + b', x, step); }
        FoldStep(Fold(p + b', step), x, |p + b'|, step);
        { FoldSameFrom(p, q, b', step); }
        FoldStep(Fold(q + b', step), x, |q + b'|, step);
        { FoldSnoc(q + b', x, step); }
        Fold(q + b, step);
      }
    }
  }

  /**
   * Indices are resolved only after the whole file is read: moving a face
   * line ahead of an accepted line that is not a face changes nothing, so a
   * face may name `v`, `vt` and `vn` records that come after it.
   */
  lemma ForwardReference<C>(a: seq<string>, face: string, data: string, b: seq<string>, step: LineReader<C>)
    requires step(face).Ok? && step(face).value.F?
    requires step(data).Ok? && !step(data).value.F?
    ensures LoadWith(a + [face, data] + b, step) == LoadWith(a + [data, face] + b, step)
  {
    var p := a + [face, data];
    var q := a + [data, face];
    assert p == a + [face] + [data] && q == a + [data] + [face];
    FoldSnoc(a, face, step);
    FoldSnoc(a + [face], data, step);
    FoldSnoc(a, data, step);
    FoldSnoc(a + [data], face, step);
    FoldSameFrom(p, q, b, step);
  }
}
