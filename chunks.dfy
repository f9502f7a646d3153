/**
 * The "big chunk" records both extractors hand to the auditor: a numbered,
 * optionally named, list of tagged text lines ("small chunks").
 */
module Chunks {
  import opened Wrappers
  import opened Strings

  /** The warning emoji both extractors look for: U+26A0 followed by the emoji variation selector. */
  const WarningSign: string := "\U{26A0}\U{FE0F}"

  datatype BigChunk = BigChunk(index: int, name: Option<string>, smallChunks: seq<string>)

  /** Unnamed chunks over `gs`, numbered consecutively from `start`. */
  function Number(gs: seq<seq<string>>, start: int): (r: seq<BigChunk>)
    ensures |r| == |gs|
    ensures forall i :: 0 <= i < |gs| ==> r[i].index == start + i && r[i].smallChunks == gs[i]
    ensures forall i :: 0 <= i < |gs| ==> r[i].name.None?
  {
    seq(|gs|, i requires 0 <= i < |gs| => BigChunk(start + i, None, gs[i]))
  }

  lemma NumberSnoc(gs: seq<seq<string>>, g: seq<string>, start: int)
    ensures Number(gs + [g], start) == Number(gs, start) + [BigChunk(start + |gs|, None, g)]
  {
  }

  /** The lines of a list of groups, in order. */
  function Flatten(gs: seq<seq<string>>): seq<string>
  {
    if gs == [] then [] else Flatten(gs[..|gs| - 1]) + gs[|gs| - 1]
  }

  /** The lines of a list of chunks, in order. */
  function AllSmallChunks(cs: seq<BigChunk>): seq<string>
  {
    if cs == [] then [] else AllSmallChunks(cs[..|cs| - 1]) + cs[|cs| - 1].smallChunks
  }

  /** Numbering loses no line: the chunks hold exactly the groups' lines. */
  lemma {:induction false} AllSmallChunksOfNumber(gs: seq<seq<string>>, start: int)
    ensures AllSmallChunks(Number(gs, start)) == Flatten(gs)
    decreases |gs|
  {
    if gs != [] {
      var n := |gs| - 1;
      assert Number(gs, start)[..n] == Number(gs[..n], start);
      AllSmallChunksOfNumber(gs[..n], start);
    }
  }

  /**
   * A line stream cut into chunks at header lines: a line starting with `head`
   * opens a new group, as does the first line; every other line joins the
   * last group.
   */
  function GroupsAt(lines: seq<string>, head: string): (gs: seq<seq<string>>)
    ensures lines == [] <==> gs == []
  {
    if lines == [] then []
    else
      var gs := GroupsAt(lines[..|lines| - 1], head);
      var l := lines[|lines| - 1];
      if gs == [] || StartsWith(l, head) then gs + [[l]]
      else gs[..|gs| - 1] + [gs[|gs| - 1] + [l]]
  }

  lemma GroupsAtSnoc(lines: seq<string>, head: string, l: string)
    ensures var gs := GroupsAt(lines, head);
      GroupsAt(lines + [l], head) ==
        if gs == [] || StartsWith(l, head) then gs + [[l]] else gs[..|gs| - 1] + [gs[|gs| - 1] + [l]]
  {
    assert (lines + [l])[..|lines|] == lines;
  }

  /** Nothing is dropped, duplicated or reordered: the groups concatenate back to the stream. */
  lemma {:induction false} GroupsAtFlatten(lines: seq<string>, head: string)
    ensures Flatten(GroupsAt(lines, head)) == lines
  {
    if lines != [] {
      var n := |lines| - 1;
      var gs := GroupsAt(lines[..n], head);
      var l := lines[n];
      GroupsAtFlatten(lines[..n], head);
      assert lines == lines[..n] + [l];
      if gs == [] || StartsWith(l, head) {
        assert (gs + [[l]])[..|gs|] == gs;
      } else {
        var k := |gs| - 1;
        var gs' := gs[..k] + [gs[k] + [l]];
        assert gs'[..k] == gs[..k];
        assert Flatten(gs) == Flatten(gs[..k]) + gs[k];
      }
    }
  }

  /**
   * Every group has a line; only a group's first line can be a header line,
   * and every group but the first starts with one.
   */
  lemma {:induction false} GroupsAtShape(lines: seq<string>, head: string)
    ensures forall i :: 0 <= i < |GroupsAt(lines, head)| ==> GroupsAt(lines, head)[i] != []
    ensures forall i, j :: 0 <= i < |GroupsAt(lines, head)| && 0 < j < |GroupsAt(lines, head)[i]|
              ==> !StartsWith(GroupsAt(lines, head)[i][j], head)
    ensures forall i :: 0 < i < |GroupsAt(lines, head)| ==> StartsWith(GroupsAt(lines, head)[i][0], head)
  {
    if lines != [] {
      var n := |lines| - 1;
      GroupsAtShape(lines[..n], head);
      var gs := GroupsAt(lines[..n], head);
      var l := lines[n];
      if !(gs == [] || StartsWith(l, head)) {
        var k := |gs| - 1;
        var gs' := gs[..k] + [gs[k] + [l]];
        assert forall i :: 0 <= i < k ==> gs'[i] == gs[i];
        assert gs'[k] == gs[k] + [l];
      }
    }
  }

  /** Without any header line the whole stream is one group. */
  lemma {:induction false} GroupsAtWithoutHead(lines: seq<string>, head: string)
    requires lines != [] && forall j :: 0 <= j < |lines| ==> !StartsWith(lines[j], head)
    ensures GroupsAt(lines, head) == [lines]
  {
    var n := |lines| - 1;
    assert lines[..n] + [lines[n]] == lines;
    if n == 0 {
      assert lines[..n] == [];
    } else {
      GroupsAtWithoutHead(lines[..n], head);
    }
  }
}
