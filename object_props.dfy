/**
 * What `load` promises, proved about the model in module Object: the
 * grammar each line is held to, the per-kind collection of records in file
 * order, the lockstep growth of the index lists, 1-based resolution with no
 * clamping, and the lines that change nothing.
 */
module ObjectProps {
  import opened Wrappers
  import opened Text
  import opened Object

  // ---------------------------------------------------------------------
  // The `scan!` macro on the rebuilt payload

  /** The payload rebuilt from whitespace-free tokens splits back into those tokens and one empty piece. */
  lemma {:induction false} SplitPayload(ws: seq<string>)
    requires forall w :: w in ws ==> NoSep(w, IsWhitespace)
    ensures Split(Payload(ws), IsWhitespace) == ws + [[]]
  {
    if ws != [] {
      assert ws[0] in ws;
      assert forall w :: w in ws[1..] ==> w in ws;
      SplitPayload(ws[1..]);
      SplitAfterSep(ws[0], '\n', Payload(ws[1..]), IsWhitespace);
      assert Payload(ws) == ws[0] + ['\n'] + Payload(ws[1..]);
      assert [ws[0]] + (ws[1..] + [[]]) == ws + [[]];
    }
  }

  /**
   * `scan!` over the payload of a line reads the tokens after the tag: the
   * k-th parsed value comes from the k-th token, the first missing token
   * reads as the empty string, and later ones are `None`.
   */
  lemma ScanPayload<T>(ws: seq<string>, n: nat, parse: string -> Option<T>, k: nat)
    requires forall w :: w in ws ==> NoSep(w, IsWhitespace)
    requires k < n
    ensures Scan(Payload(ws), n, parse)[k]
      == if k < |ws| then parse(ws[k]) else if k == |ws| then parse([]) else None
  {
    SplitPayload(ws);
  }

  // ---------------------------------------------------------------------
  // One line

  /** A line is rejected as empty exactly when it is blank or all whitespace; it is never skipped. */
  lemma BlankLine<C>(line: string, parseCoord: string -> Option<C>)
    ensures ParseLine(line, parseCoord) == Err(EmptyLine) <==> forall c :: c in line ==> IsWhitespace(c)
  {
    NoWords(line);
  }

  /** The value the `p`-th coordinate token of a line parses to, `None` past the end. */
  function CoordAt<C>(words: seq<string>, k: nat, parseCoord: string -> Option<C>): Option<C> {
    if k < |words| then parseCoord(words[k]) else None
  }

  /**
   * A `v` or `vn` line is accepted exactly when its first three payload
   * tokens parse as coordinates; later tokens are ignored, and the first
   * missing or bad one is the fault.
   */
  lemma Vec3Line<C>(line: string, parseCoord: string -> Option<C>)
    requires parseCoord([]) == None
    requires Words(line) != [] && (Words(line)[0] == "v" || Words(line)[0] == "vn")
    ensures var words := Words(line);
      var r := ParseLine(line, parseCoord);
      && (r.Ok? <==> |words| >= 4 && CoordAt(words, 1, parseCoord).Some?
                      && CoordAt(words, 2, parseCoord).Some? && CoordAt(words, 3, parseCoord).Some?)
      && (r.Ok? ==>
            var p := Vec3(parseCoord(words[1]).value, parseCoord(words[2]).value, parseCoord(words[3]).value);
            r.value == if words[0] == "v" then V(p) else Vn(p))
      && (r.Err? ==> exists k :: 1 <= k <= 3 && r.error == BadCoord(k - 1) && CoordAt(words, k, parseCoord).None?
                           && forall j :: 1 <= j < k ==> CoordAt(words, j, parseCoord).Some?)
  {
    var words := Words(line);
    var rest := words[1..];
    assert forall w :: w in rest ==> w in words;
    forall k | 0 <= k < 3
      ensures Scan(Payload(rest), 3, parseCoord)[k] == CoordAt(words, k + 1, parseCoord)
    {
      ScanPayload(rest, 3, parseCoord, k);
    }
    var r := ParseLine(line, parseCoord);
    if r.Err? {
      if CoordAt(words, 1, parseCoord).None? {
        assert r.error == BadCoord(0);
      } else if CoordAt(words, 2, parseCoord).None? {
        assert r.error == BadCoord(1);
      } else {
        assert r.error == BadCoord(2);
      }
    }
  }

  /** A `vt` line is accepted exactly when its first two payload tokens parse as coordinates; later tokens are ignored. */
  lemma Vec2Line<C>(line: string, parseCoord: string -> Option<C>)
    requires parseCoord([]) == None
    requires Words(line) != [] && Words(line)[0] == "vt"
    ensures var words := Words(line);
      var r := ParseLine(line, parseCoord);
      && (r.Ok? <==> |words| >= 3 && CoordAt(words, 1, parseCoord).Some? && CoordAt(words, 2, parseCoord).Some?)
      && (r.Ok? ==> r.value == Vt(Vec2(parseCoord(words[1]).value, parseCoord(words[2]).value)))
      && (r.Err? ==> exists k :: 1 <= k <= 2 && r.error == BadCoord(k - 1) && CoordAt(words, k, parseCoord).None?
                           && forall j :: 1 <= j < k ==> CoordAt(words, j, parseCoord).Some?)
  {
    var words := Words(line);
    var rest := words[1..];
    assert forall w :: w in rest ==> w in words;
    forall k | 0 <= k < 2
      ensures Scan(Payload(rest), 2, parseCoord)[k] == CoordAt(words, k + 1, parseCoord)
    {
      ScanPayload(rest, 2, parseCoord, k);
    }
    var r := ParseLine(line, parseCoord);
    if r.Err? {
      if CoordAt(words, 1, parseCoord).None? {
        assert r.error == BadCoord(0);
      } else {
        assert r.error == BadCoord(1);
      }
    }
  }

  /** The corner a `p/t/n` token denotes: at least three `/`-separated fields, the first three unsigned integers. */
  function CornerOf(token: string): Option<Corner> {
    var fields := Split(token, IsSlash);
    if |fields| >= 3 && ParseUsize(fields[0]).Some? && ParseUsize(fields[1]).Some? && ParseUsize(fields[2]).Some?
    then Some(Corner(ParseUsize(fields[0]).value, ParseUsize(fields[1]).value, ParseUsize(fields[2]).value))
    else None
  }

  /** A face group is read exactly as `CornerOf` says; fields after the third are ignored. */
  lemma CornerToken(token: string, corner: nat)
    ensures ParseCorner(Some(token), corner).Ok? <==> CornerOf(token).Some?
    ensures ParseCorner(Some(token), corner).Ok? ==> ParseCorner(Some(token), corner).value == CornerOf(token).value
  {
  }

  /** `1//1` is rejected: its empty middle field does not parse. */
  lemma EmptyFieldRejected(corner: nat)
    ensures ParseCorner(Some("1//1"), corner) == Err(BadIndex(corner, 1))
  {
    var fields := Split("1//1", IsSlash);
    assert fields == ["1", "", "1"] by {
      assert Split("1", IsSlash) == ["1"] by { OneDigitPiece(); }
      assert "/1"[1..] == "1" && IsSlash("/1"[0]);
      assert Split("/1", IsSlash) == ["", "1"];
      assert "//1"[1..] == "/1" && IsSlash("//1"[0]);
      assert Split("//1", IsSlash) == ["", "", "1"];
      assert "1//1"[1..] == "//1" && !IsSlash("1//1"[0]);
    }
    assert ParseUsize("1") == Some(1) by {
      assert DigitsValue("1") == DigitsValue("") * 10 + 1;
    }
  }

  lemma OneDigitPiece()
    ensures Split("1", IsSlash) == ["1"]
  {
    var isSep: char -> bool := IsSlash;
    var rest := Split("1"[1..], isSep);
    assert "1"[1..] == [] && rest == [[]];
    assert !isSep("1"[0]);
    assert Split("1", isSep) == [["1"[0]] + rest[0]] + rest[1..];
    assert ["1"[0]] + rest[0] == "1";
    assert rest[1..] == [];
  }

  /** A bare `1` is rejected: it has no second field. */
  lemma BareIndexRejected(corner: nat)
    ensures ParseCorner(Some("1"), corner) == Err(MissingField(corner, 1))
  {
    OneDigitPiece();
    assert ParseUsize("1") == Some(1) by {
      assert DigitsValue("1") == DigitsValue("") * 10 + 1;
    }
  }

  /**
   * An `f` line is accepted exactly when it has at least three payload
   * tokens and each of the first three is a `p/t/n` corner; a fourth corner
   * and beyond is dropped, and the corners keep their token order.
   */
  lemma FaceLine<C>(line: string, parseCoord: string -> Option<C>)
    requires Words(line) != [] && Words(line)[0] == "f"
    ensures var words := Words(line);
      var r := ParseLine(line, parseCoord);
      && (r.Ok? <==> |words| >= 4 && CornerOf(words[1]).Some? && CornerOf(words[2]).Some? && CornerOf(words[3]).Some?)
      && (r.Ok? ==> r.value == F(CornerOf(words[1]).value, CornerOf(words[2]).value, CornerOf(words[3]).value))
  {
    var words := Words(line);
    var rest := words[1..];
    assert forall w :: w in rest ==> w in words;
    var groups := Scan(Payload(rest), 3, AsString);
    FaceGroups(rest);
    forall k | 0 <= k < 3 && k < |rest|
      ensures ParseCorner(groups[k], k).Ok? <==> CornerOf(rest[k]).Some?
      ensures ParseCorner(groups[k], k).Ok? ==> ParseCorner(groups[k], k).value == CornerOf(rest[k]).value
    {
      CornerToken(rest[k], k);
    }
    if |rest| < 3 {
      EmptyGroupRejected(|rest|);
    }
  }

  /** The empty piece `scan!` yields after the last token is rejected when read as a corner. */
  lemma EmptyGroupRejected(corner: nat)
    ensures ParseCorner(Some([]), corner) == Err(BadIndex(corner, 0))
  {
    assert Split([], IsSlash) == [[]];
  }

  /** The three groups `scan!` gives for a face payload: the tokens, then one empty piece, then nothing. */
  lemma FaceGroups(rest: seq<string>)
    requires forall w :: w in rest ==> NoSep(w, IsWhitespace)
    ensures forall k :: 0 <= k < 3 ==>
      Scan(Payload(rest), 3, AsString)[k] == if k < |rest| then Some(rest[k]) else if k == |rest| then Some([]) else None
  {
    forall k | 0 <= k < 3
      ensures Scan(Payload(rest), 3, AsString)[k] == if k < |rest| then Some(rest[k]) else if k == |rest| then Some([]) else None
    {
      ScanPayload(rest, 3, AsString, k);
    }
  }

  lemma FacePayloadNeverMissingCorner<C>(rest: seq<string>)
    requires forall w :: w in rest ==> NoSep(w, IsWhitespace)
    ensures var r := ParseFace<C>(Payload(rest)); r.Err? ==> !r.error.MissingCorner?
  {
    FaceGroups(rest);
    GroupsNeverMissingCorner<C>(Payload(rest), |rest|);
  }

  /**
   * Face groups present up to position `m`, with the one at `m` empty: the
   * empty group fails as an index before a missing group is unwrapped.
   */
  lemma GroupsNeverMissingCorner<C>(payload: string, m: nat)
    requires forall k :: 0 <= k < 3 && k <= m ==> Scan(payload, 3, AsString)[k].Some?
    requires m < 3 ==> Scan(payload, 3, AsString)[m] == Some([])
    ensures var r := ParseFace<C>(payload); r.Err? ==> !r.error.MissingCorner?
  {
    var groups := Scan(payload, 3, AsString);
    EmptyGroupRejected(m);
    var r := ParseFace<C>(payload);
    if r.Err? {
      var c0 := ParseCorner(groups[0], 0);
      if c0.Err? {
        assert r.error == c0.error;
      } else {
        assert m >= 1;
        var c1 := ParseCorner(groups[1], 1);
        if c1.Err? {
          assert r.error == c1.error;
        } else {
          assert m >= 2;
          assert r.error == ParseCorner(groups[2], 2).error;
        }
      }
    }
  }

  /**
   * `groupN.unwrap()` never panics: when a face has fewer than three
   * tokens, the empty piece after the last one fails to parse first.
   */
  lemma FaceNeverMissingCorner<C>(line: string, parseCoord: string -> Option<C>)
    ensures ParseLine(line, parseCoord).Err? ==> !ParseLine(line, parseCoord).error.MissingCorner?
  {
    var words := Words(line);
    if words != [] && words[0] == "f" {
      var rest := words[1..];
      assert forall w :: w in rest ==> w in words;
      FacePayloadNeverMissingCorner<C>(rest);
    }
  }

  /** A line whose first token is none of `v`, `vt`, `vn`, `f` is accepted and contributes nothing, and only such a line. */
  lemma OtherLine<C>(line: string, parseCoord: string -> Option<C>)
    ensures ParseLine(line, parseCoord) == Ok(Other) <==> Words(line) != [] && IsOtherTag(Words(line)[0])
  {
  }
}
