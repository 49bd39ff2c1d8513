# Wavefront OBJ mesh loader, modelled in Dafny

This project models `load` in `src/object.rs` of a small OpenGL solar-system
renderer, together with the `scan!` tokenising macro it uses. `load` reads a
Wavefront OBJ file line by line. It pushes `v`, `vt` and `vn` records onto
three raw attribute tables (`temp_vertices`, `temp_uvs`, `temp_normals`).
Each `f` line is three `p/t/n` corners, and it pushes their 1-based indices onto
three index lists (`vertex_indices`, `uv_indices`, `normal_indices`). When the
input is exhausted, a second loop resolves every index triple against the
tables. The result is three per-corner streams (`vertices`, `uvs`,
`normals`), ready for a non-indexed triangle draw.

Files:

- `wrappers.dfy`: `Option` and `Result`.
- `text.dfy` (module `Text`): the parts of Rust's string library that `load`
  depends on. These are `char::is_whitespace`, `str::split` with a character
  pattern, `str::split_whitespace`, and `usize::from_str` on a 64-bit target.
- `object.dfy` (module `Object`): the records and faults, and `scan!` as
  `Scan`. It holds the per-line reading `ParseLine`, the first loop as the
  fold `Fold` over any per-line reader (`Parse` uses `ParseLine`), the
  second loop as `Flatten`, and `LoadWith`/`LoadSpec` for the whole of
  `load`. Whole-file lemmas are stated for any per-line reader, so they hold
  of `LoadSpec` in particular. It also
  holds the imperative `Load`, made of `ReadRecord`, `ReadLines` and
  `FlattenAll`. Each of these is proved equal to its specification function.
  `ReadRecord` keeps the source's fixed three-element index arrays.
- `object_props.dfy` (module `ObjectProps`): the grammar each line is held to.
- `load_props.dfy` (module `LoadProps`): whole-file properties. These cover
  collection in file order, lockstep growth of the index lists, 1-based
  resolution without clamping, ignored and aborting lines, and forward
  references.

Every `unwrap` on `None`, every parse error, every out-of-bounds index and
the `usize` underflow of `index - 1` panic in the source. Here each is a
distinguishable `Err`: `LoadError.BadLine(line, fault)` with a `LineFault`,
or `LoadError.IndexOutOfRange(corner, attribute, index)`. Line and corner
numbers count from 0.

The code is looser or stricter than the usual reading of the OBJ format
(blank lines skipped, exactly three coordinates per vertex, exactly three
`p/t/n` corners per triangle) in these ways, and the model follows the code:

- A blank or whitespace-only line is not ignored.
  `split_whitespace().next().unwrap()` panics on it, so it is the fault
  `EmptyLine` (`BlankLine`, `BlankLineAborts`).
- `v`/`vn` lines need at least three numbers and `vt` lines at least two.
  Tokens beyond these are ignored rather than rejected.
- Faces need at least three tokens; a fourth and later corners are dropped.
- Each face token needs at least three `/`-separated fields. Fields after
  the third are ignored.
- Indices are `usize` values. `0` and a leading `+` are accepted when the
  token is parsed. An index of `0` fails only when it is resolved.
- A face with fewer than three tokens never fails at `groupN.unwrap()`.
  `scan!` runs over the payload rebuilt as `token\n...`, which yields an
  empty piece after the last token. That piece fails to parse as an index
  first (`FaceNeverMissingCorner`).

## Model

| member | source | states |
|---|---|---|
| Text.Split | src/object.rs:4-9 | `str::split`: at least one piece, and no piece contains a separator |
| Text.SplitCount | src/object.rs:4-9 | `str::split` gives one more piece than there are separators, empty pieces included |
| Text.SplitAtSep | src/object.rs:4-9 | a separator cuts the string in two: the pieces of what comes before it, then the pieces of what comes after |
| Text.SplitNoSep | src/object.rs:75 | a string without separators is a single piece |
| Text.JoinSplit | src/object.rs:75 | splitting a face token on `/` loses nothing: joining the pieces with `/` gives the token back |
| Text.Words | src/object.rs:38-42 | `split_whitespace` yields only non-empty, whitespace-free tokens; which tokens, in which order, is fixed by `OneWord`, `WordsAtSpace` and `NoWords` |
| Text.OneWord | src/object.rs:38-42 | a non-empty run without whitespace is exactly one token |
| Text.WordsAtSpace | src/object.rs:38-42 | a whitespace character separates tokens: the tokens of what precedes it, then the tokens of what follows, in order |
| Text.NoWords | src/object.rs:38 | a line has no first token exactly when it is empty or all whitespace |
| Text.ParseUsize | src/object.rs:76-78 | a parsed index is at most 2^64-1, and the empty string and a lone `+` never parse |
| Text.ParseShow | src/object.rs:76-78 | every `usize` written in decimal parses back to itself |
| Text.ParseUsizeExactly | src/object.rs:76-78 | a string parses to `n` exactly when `n` fits in a `usize` and the string is an optional `+`, any number of zeros and the decimal `n`; the empty string, a lone `+`, a `-`, any other non-digit and any overflow are rejected |
| Text.ParsePadded | src/object.rs:76-78 | a leading `+` and leading zeros are accepted and do not change the value |
| Text.ParsedForm | src/object.rs:76-78 | whatever parses is an optional `+`, zeros and the decimal rendering of the result |
| Text.ParseOverflow | src/object.rs:76-78 | a decimal past 2^64-1 is rejected |
| Object.Scan | src/object.rs:4-9 | `scan!` yields exactly as many optional values as types requested |
| Object.Payload | src/object.rs:39-43 | the payload rebuilt as `token\n...` from non-empty whitespace-free tokens splits on whitespace back into exactly those tokens |
| Object.ParseVec3 | src/object.rs:46-52 | unwrapping the three coordinates in order fails only with a bad coordinate among the first three |
| Object.ParseVec2 | src/object.rs:54-59 | unwrapping the two coordinates in order fails only with a bad coordinate among the first two |
| Object.ParseCorner | src/object.rs:74-81 | a face group fails only as a missing group, a missing field or an unparsable index, and the fault names that group's own corner |
| Object.ParseFace | src/object.rs:72-109 | a face line's payload yields a face record, or a fault at one of its three groups: a missing group, a missing field or an unparsable index |
| Object.ParseLine | src/object.rs:37-110 | an accepted line has a first token, and the record's kind is the one its tag names (`v`, `vt`, `vn`, `f`, or any other tag for `Other`); the full grammar per tag is in `BlankLine`, `Vec3Line`, `Vec2Line`, `FaceLine` and `OtherLine` |
| Object.Apply | src/object.rs:45-109 | a record only pushes: every table and index list keeps its old contents as a prefix, a face adds three entries to each index list, the lists stay in lockstep, and `Other` changes nothing |
| Object.Fold | src/object.rs:35-111 | after the first loop the three index lists have equal length, three per face line; a failure names a line of the input |
| Object.FoldErrPersists | src/object.rs:35-111 | a panic on some line ends the load: no later line changes the outcome |
| Object.Resolve | src/object.rs:118-120 | `table[index - 1]` yields a value exactly when 1 <= index <= table length, and then the 1-based entry |
| Object.Flatten | src/object.rs:113-121 | flattening the first `n` corners gives `n` vertices, uvs and normals, or fails with an out-of-range index at one of those corners |
| Object.FlattenErrPersists | src/object.rs:113-121 | once a corner fails to resolve, later corners do not change the outcome |
| Object.ReadRecord | src/object.rs:37-110 | the imperative tag dispatch, coordinate unwraps and face-group reads (with the three fixed index arrays) compute exactly `ParseLine` |
| Object.ReadLines | src/object.rs:25-111 | the first loop, pushing onto six growing sequences, computes exactly the fold `Parse` |
| Object.FlattenAll | src/object.rs:113-121 | the second loop, pushing resolved vertices, uvs and normals in that order, computes exactly `Flatten` |
| Object.LoadWith | src/object.rs:35-123 | both loops (`LoadSpec` is this with `ParseLine` reading each line): a bad line is the first loop's own failure, no index is resolved before every line is read, and a result has one vertex, uv and normal per face corner |
| Object.Load | src/object.rs:11-124 | `load` on a file's lines returns exactly `LoadSpec` |
| ObjectProps.SplitPayload | src/object.rs:39-43 | the payload rebuilt as `token\n...` splits on whitespace into the tokens plus one empty piece |
| ObjectProps.ScanPayload | src/object.rs:4-9 | `scan!` on the rebuilt payload parses the k-th token after the tag, reads the first missing token as `""`, and gives `None` beyond |
| ObjectProps.BlankLine | src/object.rs:38 | a line fails with `EmptyLine` exactly when it is blank or all whitespace; no other line fails that way |
| ObjectProps.Vec3Line | src/object.rs:45-52 | a `v` or `vn` line is accepted exactly when its first three tokens parse, giving that `Vec3`; later tokens are ignored; otherwise the fault is the first missing or bad coordinate |
| ObjectProps.Vec2Line | src/object.rs:53-59 | a `vt` line is accepted exactly when its first two tokens parse, giving that `Vec2`; later tokens are ignored; otherwise the fault is the first missing or bad coordinate |
| ObjectProps.CornerToken | src/object.rs:74-81 | a face group is accepted exactly when it has at least three `/` fields whose first three parse as `usize`, and gives those three indices |
| ObjectProps.EmptyFieldRejected | src/object.rs:75-77 | `1//1` is rejected at its empty second field |
| ObjectProps.BareIndexRejected | src/object.rs:75-77 | a bare `1` is rejected because it has no second field |
| ObjectProps.FaceLine | src/object.rs:68-110 | an `f` line is accepted exactly when it has at least three tokens and the first three are corners; the record holds them in token order, and extra corners are dropped |
| ObjectProps.EmptyGroupRejected | src/object.rs:72-76 | the empty piece `scan!` gives after the last token fails as an index |
| ObjectProps.FaceGroups | src/object.rs:72 | for a face, `scan!` gives the k-th token after the tag, then one empty piece, then `None` |
| ObjectProps.GroupsNeverMissingCorner | src/object.rs:72-92 | when the groups are present up to an empty one, that empty group fails as an index before any missing group is unwrapped |
| ObjectProps.FacePayloadNeverMissingCorner | src/object.rs:72-92 | reading the three groups of a rebuilt face payload never fails for a missing group |
| ObjectProps.FaceNeverMissingCorner | src/object.rs:72-92 | no line fails at `groupN.unwrap()` |
| ObjectProps.OtherLine | src/object.rs:45-110 | a line reads as `Other` exactly when it has a first token that is none of `v`, `vt`, `vn`, `f` |
| LoadProps.FlattenResolves | src/object.rs:113-121 | flattening succeeds exactly when every index is in range, and then output k is `temp[index[k] - 1]` for vertices, uvs and normals alike |
| LoadProps.FlattenFirstFailure | src/object.rs:113-120 | a failed flattening reports the first unresolvable corner and, there, the first of vertex, uv, normal out of range, with its unclamped index (0 or past the table) |
| LoadProps.Collect | src/object.rs:45-109 | the per-kind collection of records always has index lists in lockstep |
| LoadProps.CollectSnoc | src/object.rs:45-109 | pushing one line's record in the loop equals collecting it after the earlier records |
| LoadProps.FoldCollects | src/object.rs:35-111 | the first loop succeeds exactly when every line is accepted, and then each table holds its kind's records in file order and each index list the face corners in line and token order, whatever the interleaving |
| LoadProps.FoldFirstFailure | src/object.rs:35-110 | a failed first loop names the first bad line and that line's own fault |
| LoadProps.FaceRecordsByTag | src/object.rs:68-110 | when every line is read and faces are exactly the `f`-tagged lines, the number of face records equals the number of `f` lines |
| LoadProps.LoadLengths | src/object.rs:101-121 | the three returned sequences each have length 3 times the number of `f` lines |
| LoadProps.LoadResolves | src/object.rs:35-120 | `load` (for any per-line reader, `ParseLine` among them) returns exactly when every line is accepted and every index resolves, and then `vertices[k] = temp_vertices[vertex_indices[k]-1]`, and likewise for uvs and normals |
| LoadProps.FoldSkipsOther | src/object.rs:35-111 | in the first loop, a line read as `Other` leaves the tables and index lists untouched; only the number of a later bad line shifts by one |
| LoadProps.IgnoredLine | src/object.rs:45-110 | inserting a line read as `Other` (an unrecognised tag) anywhere changes nothing in the result of `load` but the line number of a later bad line |
| LoadProps.BlankLineAborts | src/object.rs:38 | inserting a blank line after accepted lines makes the load fail at that line with `EmptyLine` |
| LoadProps.FoldSameFrom | src/object.rs:35-111 | the first loop is a left-to-right fold: two prefixes of equal length with the same outcome stay equal whatever lines follow |
| LoadProps.ForwardReference | src/object.rs:35-121 | swapping an accepted face line with an adjacent accepted non-face line leaves the result of `load` unchanged, so faces may refer to later `v`/`vt`/`vn` records |

## Left out

- File I/O: `File::open(path).unwrap()`, `BufReader::lines()` and the per-line `Result::unwrap`. The input is the file already split into lines, so an unreadable file is not modelled.
- `f32` parsing and `glm::Vector2`/`Vector3<f32>`. Coordinates have an abstract type `C`, and `str::parse::<f32>` is the parameter `parseCoord`. Lemmas about lines with too few numbers assume, as Rust's parser does, that `""` does not parse.
- Panics are `Err` values. The process abort and the panic messages are not modelled.
- An index of 0 underflows `usize` in `index - 1`. That panics in a debug build; in a release build it wraps and then fails the bounds check. Both are the one fault `IndexOutOfRange`.
- `usize` is taken to be 64 bits wide.
- src/main.rs (window, camera state, input handling, GPU buffer upload), src/shaders.rs and src/texture.rs: these are calls into OpenGL, GLFW and `stb_image`, and are not part of this model.
- Object.Scan: states only the shape of its result. What the values are is stated by `ObjectProps.ScanPayload` for the payloads `load` builds.
