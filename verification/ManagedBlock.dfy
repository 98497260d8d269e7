/**
 * The marker splice of WritePGHBA (internal/cluster/replication.go) as a lens on the text of pg_hba.conf.
 * The laws are stated for any pair of markers that are single lines with one '#', at the front; PG_HBA is the pair
 * the source uses.
 */
module ManagedBlock {
  import opened Base

  datatype Markers = Markers(begin: string, end: string) {
    ghost predicate Valid() {
      Marker(begin) && Marker(end) && |begin| > 2 && |end| > 2 && begin[2] != end[2]
    }
  }

  ghost predicate Marker(p: string) {
    |p| > 0 && p[0] == '#' && forall k :: 0 < k < |p| ==> p[k] != '#' && p[k] != '\n'
  }

  const PG_HBA := Markers("# BEGIN pgbastion managed block" + " - do not edit between markers",
                          "# END pgbastion managed block")

  lemma PgHbaBegin()
    ensures Marker(PG_HBA.begin) && PG_HBA.begin[2] == 'B'
  {
  }

  lemma PgHbaMarkersAreValid()
    ensures PG_HBA.Valid()
  {
    PgHbaBegin();
  }

  predicate At(s: string, i: int, p: string) {
    0 <= i && i + |p| <= |s| && s[i..i + |p|] == p
  }

  predicate Occurs(s: string, p: string) {
    exists i :: 0 <= i < |s| && At(s, i, p)
  }

  function IndexFrom(s: string, p: string, from: nat): (r: int)
    requires from <= |s|
    ensures r == -1 || (from <= r && At(s, r, p))
    ensures forall j :: from <= j && (r == -1 || j < r) ==> !At(s, j, p)
    decreases |s| - from
  {
    if At(s, from, p) then from
    else if from == |s| then -1
    else IndexFrom(s, p, from + 1)
  }

  /** `strings.Index`: the first occurrence, or -1. */
  function Index(s: string, p: string): (r: int)
    ensures r == -1 || At(s, r, p)
    ensures r >= -1 && forall j :: (r == -1 || j < r) ==> !At(s, j, p)
  {
    IndexFrom(s, p, 0)
  }

  function Fence(m: Markers, block: string): string {
    m.begin + "\n" + block + m.end
  }

  function EndLine(s: string): string {
    if s == "" || s[|s| - 1] != '\n' then s + "\n" else s
  }

  /** The new file content for the existing content (empty when there is no file) and the rendered block. */
  function Write(m: Markers, content: string, block: string): string {
    if |content| > 0 then
      var b := Index(content, m.begin);
      var e := Index(content, m.end);
      if b >= 0 && e > b then content[..b] + Fence(m, block) + content[e + |m.end|..]
      else if b >= 0 || e >= 0 then content + "\n" + Fence(m, block) + "\n"
      else EndLine(content) + "\n" + Fence(m, block) + "\n"
    else Fence(m, block) + "\n"
  }

  // ---------------------------------------------------------------- vocabulary of the laws

  predicate HasBlock(m: Markers, s: string) {
    0 <= Index(s, m.begin) < Index(s, m.end)
  }

  predicate Unmarked(m: Markers, s: string) {
    Index(s, m.begin) == -1 && Index(s, m.end) == -1
  }

  /** No markers at all, or the first END after the first BEGIN. */
  predicate WellFormed(m: Markers, s: string) {
    Unmarked(m, s) || HasBlock(m, s)
  }

  /** The text before and after the managed block: the part the administrator owns. */
  function Outside(m: Markers, s: string): (string, string)
    requires WellFormed(m, s)
  {
    if HasBlock(m, s) then (s[..Index(s, m.begin)], s[Index(s, m.end) + |m.end|..])
    else if s == "" then ("", "\n")
    else (EndLine(s) + "\n", "\n")
  }

  /** The block between the markers, if BEGIN is followed by at least its line break. */
  function Read(m: Markers, s: string): Option<string> {
    var b, e := Index(s, m.begin), Index(s, m.end);
    if 0 <= b && b + |m.begin| < e then Some(s[b + |m.begin| + 1..e]) else None
  }

  function WriteAll(m: Markers, s: string, blocks: seq<string>): string {
    if blocks == [] then s else Write(m, WriteAll(m, s, blocks[..|blocks| - 1]), blocks[|blocks| - 1])
  }

  // ---------------------------------------------------------------- occurrences

  lemma AtInPrefix(s: string, t: string, i: int, p: string)
    requires i + |p| <= |s|
    ensures At(s + t, i, p) <==> At(s, i, p)
  {
  }

  lemma AtInSuffix(s: string, t: string, i: int, p: string)
    requires |s| <= i
    ensures At(s + t, i, p) <==> At(t, i - |s|, p)
  {
  }

  /** A marker does not run across a line break, nor into a later '#'. */
  lemma MarkerDoesNotCross(s: string, i: int, k: int, p: string)
    requires Marker(p) && At(s, i, p) && 0 <= k < |s| && (s[k] == '\n' || s[k] == '#')
    ensures i + |p| <= k || k <= i
    ensures s[i] == '#'
  {
  }

  lemma IndexIs(s: string, p: string, i: int)
    requires At(s, i, p) && forall j :: 0 <= j < i ==> !At(s, j, p)
    ensures Index(s, p) == i
  {
  }

  // ---------------------------------------------------------------- the assembled text

  /** No marker starts in `pre` when BEGIN follows it. */
  ghost predicate CleanPrefix(m: Markers, pre: string) {
    forall i :: 0 <= i < |pre| ==> !At(pre + m.begin, i, m.begin) && !At(pre + m.begin, i, m.end)
  }

  function Assemble(m: Markers, pre: string, block: string, post: string): string {
    pre + m.begin + "\n" + block + m.end + post
  }

  lemma WriteAssembles(m: Markers, s: string, block: string)
    requires m.Valid() && WellFormed(m, s)
    ensures Write(m, s, block) == Assemble(m, Outside(m, s).0, block, Outside(m, s).1)
  {
    var (pre, post) := Outside(m, s);
    assert pre + Fence(m, block) + post == Assemble(m, pre, block, post);
  }

  lemma OutsideIsClean(m: Markers, s: string)
    requires m.Valid() && WellFormed(m, s)
    ensures CleanPrefix(m, Outside(m, s).0)
  {
    var pre := Outside(m, s).0;
    var t := pre + m.begin;
    forall i | 0 <= i < |pre|
      ensures !At(t, i, m.begin) && !At(t, i, m.end)
    {
      if HasBlock(m, s) {
        var rest := s[Index(s, m.begin) + |m.begin|..];
        assert s == t + rest;
        AtInPrefix(t, rest, i, m.begin);
        if At(t, i, m.end) {
          AtInPrefix(t, rest, i, m.end);
        }
      } else {
        UnmarkedIsClean(m, s, i, m.begin);
        UnmarkedIsClean(m, s, i, m.end);
      }
    }
  }

  lemma UnmarkedIsClean(m: Markers, s: string, i: int, p: string)
    requires m.Valid() && Unmarked(m, s) && (p == m.begin || p == m.end)
    requires 0 <= i < |Outside(m, s).0|
    ensures !At(Outside(m, s).0 + m.begin, i, p)
  {
    var t := Outside(m, s).0 + m.begin;
    if At(t, i, p) {
      var k := |Outside(m, s).0| - 1;
      assert t[k] == '\n';
      MarkerDoesNotCross(t, i, k, p);
      if EndLine(s) != s {
        assert t[|s|] == '\n';
        MarkerDoesNotCross(t, i, |s|, p);
      }
      assert t == s + t[|s|..];
      AtInPrefix(s, t[|s|..], i, p);
    }
  }

  /** In pre + BEGIN + newline + block + END + post, an END before the last one lies in pre + BEGIN or in the block. */
  lemma EarlierEnd(m: Markers, pre: string, block: string, post: string, j: int)
    requires m.Valid() && At(Assemble(m, pre, block, post), j, m.end)
    requires j < |pre| + |m.begin| + 1 + |block|
    ensures At(pre + m.begin, j, m.end) || At(block, j - |pre| - |m.begin| - 1, m.end)
  {
    var s := Assemble(m, pre, block, post);
    var nl := |pre| + |m.begin|;
    var front := pre + m.begin + "\n";
    assert s == front + (block + (m.end + post));
    assert s == (pre + m.begin) + ("\n" + block + m.end + post);
    assert s[nl] == '\n' && s[nl + 1 + |block|] == '#';
    MarkerDoesNotCross(s, j, nl, m.end);
    MarkerDoesNotCross(s, j, nl + 1 + |block|, m.end);
    if j < nl {
      AtInPrefix(pre + m.begin, "\n" + block + m.end + post, j, m.end);
    } else {
      AtInSuffix(front, block + (m.end + post), j, m.end);
      AtInPrefix(block, m.end + post, j - |front|, m.end);
    }
  }

  /** An END inside pre + BEGIN lies inside pre. */
  lemma EndNotInBegin(m: Markers, pre: string, j: int)
    requires m.Valid() && At(pre + m.begin, j, m.end)
    ensures j + |m.end| <= |pre|
  {
    var t := pre + m.begin;
    assert t[|pre|] == '#';
    MarkerDoesNotCross(t, j, |pre|, m.end);
    assert At(t, |pre|, m.begin);
    assert forall k :: |pre| < k < |t| ==> t[k] == m.begin[k - |pre|];
  }

  lemma AssembledBegin(m: Markers, pre: string, block: string, post: string)
    requires m.Valid() && CleanPrefix(m, pre)
    ensures Index(Assemble(m, pre, block, post), m.begin) == |pre|
  {
    var s := Assemble(m, pre, block, post);
    var rest := "\n" + block + m.end + post;
    assert s == (pre + m.begin) + rest;
    assert At(s, |pre|, m.begin);
    forall j | 0 <= j < |pre| ensures !At(s, j, m.begin) {
      AtInPrefix(pre + m.begin, rest, j, m.begin);
    }
    IndexIs(s, m.begin, |pre|);
  }

  lemma AssembledEnd(m: Markers, pre: string, block: string, post: string)
    requires m.Valid() && !Occurs(block, m.end)
    requires forall j :: 0 <= j < |pre| ==> !At(pre + m.begin, j, m.end)
    ensures Index(Assemble(m, pre, block, post), m.end) == |pre| + |m.begin| + 1 + |block|
  {
    var s := Assemble(m, pre, block, post);
    var e := |pre| + |m.begin| + 1 + |block|;
    assert s[e..e + |m.end|] == m.end;
    forall j | 0 <= j < e ensures !At(s, j, m.end) {
      if At(s, j, m.end) {
        EarlierEnd(m, pre, block, post, j);
        if At(pre + m.begin, j, m.end) {
          EndNotInBegin(m, pre, j);
        }
      }
    }
    IndexIs(s, m.end, e);
  }

  lemma AssembledText(m: Markers, pre: string, block: string, post: string)
    requires m.Valid() && CleanPrefix(m, pre) && !Occurs(block, m.end)
    ensures var s := Assemble(m, pre, block, post);
            HasBlock(m, s) && Outside(m, s) == (pre, post) && Read(m, s) == Some(block)
  {
    var s := Assemble(m, pre, block, post);
    AssembledBegin(m, pre, block, post);
    AssembledEnd(m, pre, block, post);
    var b, e := |pre|, |pre| + |m.begin| + 1 + |block|;
    assert s[..b] == pre && s[b + |m.begin| + 1..e] == block && s[e + |m.end|..] == post;
  }

  // ---------------------------------------------------------------- the lens laws

  /** Writing keeps the text well-formed, keeps the administrator's text, and the block reads back exactly. */
  lemma WriteKeepsOutside(m: Markers, s: string, block: string)
    requires m.Valid() && WellFormed(m, s) && !Occurs(block, m.end)
    ensures HasBlock(m, Write(m, s, block))
    ensures Outside(m, Write(m, s, block)) == Outside(m, s)
    ensures Read(m, Write(m, s, block)) == Some(block)
  {
    var (pre, post) := Outside(m, s);
    WriteAssembles(m, s, block);
    OutsideIsClean(m, s);
    AssembledText(m, pre, block, post);
  }

  /** A file without markers survives in front of the block, byte for byte. */
  lemma UnmarkedTextIsKept(m: Markers, s: string, block: string)
    requires m.Valid() && Unmarked(m, s)
    ensures s <= Write(m, s, block)
    ensures var gap := if s == "" then "" else if s[|s| - 1] == '\n' then "\n" else "\n\n";
            Write(m, s, block) == s + gap + m.begin + "\n" + block + m.end + "\n"
  {
    assert Fence(m, block) + "\n" == m.begin + "\n" + block + m.end + "\n";
    assert s != "" && s[|s| - 1] != '\n' ==> EndLine(s) + "\n" == s + "\n\n";
  }

  /** Only the last write counts. */
  lemma WriteWrite(m: Markers, s: string, b1: string, b2: string)
    requires m.Valid() && WellFormed(m, s) && !Occurs(b1, m.end)
    ensures Write(m, Write(m, s, b1), b2) == Write(m, s, b2)
  {
    WriteKeepsOutside(m, s, b1);
    WriteAssembles(m, Write(m, s, b1), b2);
    WriteAssembles(m, s, b2);
  }

  /** Any non-empty sequence of writes equals one write of the last block. */
  lemma {:induction false} WritesCollapse(m: Markers, s: string, blocks: seq<string>)
    requires m.Valid() && WellFormed(m, s) && blocks != []
    requires forall i :: 0 <= i < |blocks| ==> !Occurs(blocks[i], m.end)
    ensures WriteAll(m, s, blocks) == Write(m, s, blocks[|blocks| - 1])
    ensures WellFormed(m, WriteAll(m, s, blocks)) && Outside(m, WriteAll(m, s, blocks)) == Outside(m, s)
  {
    var init := blocks[..|blocks| - 1];
    if init != [] {
      WritesCollapse(m, s, init);
      WriteWrite(m, s, init[|init| - 1], blocks[|blocks| - 1]);
    }
    WriteKeepsOutside(m, s, blocks[|blocks| - 1]);
  }

  /** Writing back the block that is there changes nothing. */
  lemma WriteOfReadIsIdentity(m: Markers, s: string)
    requires m.Valid() && Read(m, s).Some? && s[Index(s, m.begin) + |m.begin|] == '\n'
    ensures Write(m, s, Read(m, s).value) == s
  {
    var b, e := Index(s, m.begin), Index(s, m.end);
    WriteAssembles(m, s, Read(m, s).value);
    CutAtMarkers(m, s, b, e);
  }

  lemma CutAtMarkers(m: Markers, s: string, b: int, e: int)
    requires At(s, b, m.begin) && At(s, e, m.end) && b + |m.begin| < e && s[b + |m.begin|] == '\n'
    ensures s == Assemble(m, s[..b], s[b + |m.begin| + 1..e], s[e + |m.end|..])
  {
  }

  // ---------------------------------------------------------------- exactly when the laws hold

  /** On a well-formed file the block reads back if and only if it does not contain the END marker. */
  lemma ReadsBackIffEndFree(m: Markers, s: string, block: string)
    requires m.Valid() && WellFormed(m, s)
    ensures Read(m, Write(m, s, block)) == Some(block) <==> !Occurs(block, m.end)
  {
    if Occurs(block, m.end) {
      var i :| 0 <= i < |block| && At(block, i, m.end);
      var (pre, post) := Outside(m, s);
      WriteAssembles(m, s, block);
      OutsideIsClean(m, s);
      AssembledBegin(m, pre, block, post);
      EndInBlock(m, pre, block, post, i);
    } else {
      WriteKeepsOutside(m, s, block);
    }
  }

  lemma EndInBlock(m: Markers, pre: string, block: string, post: string, i: int)
    requires At(block, i, m.end)
    ensures var e := Index(Assemble(m, pre, block, post), m.end);
            0 <= e <= |pre| + |m.begin| + 1 + i
  {
    var s := Assemble(m, pre, block, post);
    var front := pre + m.begin + "\n";
    assert s == front + (block + (m.end + post));
    AtInPrefix(block, m.end + post, i, m.end);
    AtInSuffix(front, block + (m.end + post), |front| + i, m.end);
  }

  lemma AppendedText(m: Markers, s: string, block: string)
    requires s != "" && !HasBlock(m, s) && !Unmarked(m, s)
    ensures Write(m, s, block) == Assemble(m, s + "\n", block, "\n")
  {
  }

  /** A stray END in front: every write appends another block. */
  lemma StrayEndStays(m: Markers, s: string, block: string)
    requires m.Valid() && 0 <= Index(s, m.end) && (Index(s, m.begin) == -1 || Index(s, m.end) < Index(s, m.begin))
    ensures var w := Write(m, s, block);
            0 <= Index(w, m.end) && Index(w, m.end) < Index(w, m.begin)
  {
    AppendedText(m, s, block);
    var w := Write(m, s, block);
    var e := Index(s, m.end);
    var tail := "\n" + m.begin + "\n" + block + m.end + "\n";
    assert w == s + tail;
    AtInPrefix(s, tail, e, m.end);
    assert w[|s| + 1..|s| + 1 + |m.begin|] == m.begin;
    assert At(w, |s| + 1, m.begin);
    var b := Index(w, m.begin);
    if b <= e {
      assert w[|s|] == '\n';
      MarkerDoesNotCross(w, b, |s|, m.begin);
      AtInPrefix(s, tail, b, m.begin);
    }
  }

  /** A stray BEGIN without END: the next write swallows everything from it to the appended block. */
  lemma StrayBeginSwallows(m: Markers, s: string, block: string)
    requires m.Valid() && 0 <= Index(s, m.begin) && Index(s, m.end) == -1 && !Occurs(block, m.end)
    ensures var w := Write(m, s, block);
            Index(w, m.begin) == Index(s, m.begin) && Index(w, m.end) == |w| - |m.end| - 1
  {
    AppendedText(m, s, block);
    var w := Write(m, s, block);
    var b := Index(s, m.begin);
    var tail := "\n" + m.begin + "\n" + block + m.end + "\n";
    assert w == s + tail;
    AtInPrefix(s, tail, b, m.begin);
    forall j | 0 <= j < b ensures !At(w, j, m.begin) {
      AtInPrefix(s, tail, j, m.begin);
    }
    IndexIs(w, m.begin, b);
    var t := s + "\n" + m.begin;
    forall j | 0 <= j < |s + "\n"| ensures !At(t, j, m.end) {
      if At(t, j, m.end) {
        assert t[|s|] == '\n';
        MarkerDoesNotCross(t, j, |s|, m.end);
        assert t == s + ("\n" + m.begin);
        AtInPrefix(s, "\n" + m.begin, j, m.end);
      }
    }
    AssembledEnd(m, s + "\n", block, "\n");
  }

  /** For END-free blocks the last-write law holds if and only if the file was well-formed. */
  lemma LastWriteWinsIffWellFormed(m: Markers, s: string, b1: string, b2: string)
    requires m.Valid() && !Occurs(b1, m.end)
    ensures Write(m, Write(m, s, b1), b2) == Write(m, s, b2) <==> WellFormed(m, s)
  {
    if WellFormed(m, s) {
      WriteWrite(m, s, b1, b2);
    } else if Index(s, m.end) == -1 {
      StrayBeginSwallows(m, s, b1);
      AppendedText(m, s, b2);
      assert |Write(m, Write(m, s, b1), b2)| < |Write(m, s, b2)|;
    } else {
      StrayEndStays(m, s, b1);
      AppendedText(m, s, b1);
      AppendedText(m, s, b2);
      AppendedText(m, Write(m, s, b1), b2);
      assert |Write(m, Write(m, s, b1), b2)| > |Write(m, s, b2)|;
    }
  }
}
