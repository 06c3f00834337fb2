/**
  The post-processing pass: a speaker name the model rendered as
  "Monologue" is cleared, and so is a line text rendered as "Monologue"
  when the source line is blank.
 */
module Cleanup {
  import opened Strings
  import opened Records
  import opened Passes

  predicate IsMonologue(s: string) {
    LowerEquals(s, "monologue")
  }

  /** One block after the pass. */
  function CleanBlock(b: Block): (r: Block)
    ensures SameBlockShape(b, r) && r.choices == b.choices
    ensures !IsMonologue(r.enName)
    ensures r.enName == b.enName || (r.enName == [] && IsMonologue(b.enName))
    ensures Blank(b.jpText) ==> !IsMonologue(r.enText)
    ensures r.enText == b.enText || (r.enText == [] && Blank(b.jpText) && IsMonologue(b.enText))
  {
    var b1 := if IsMonologue(b.enName) then b.(enName := "") else b;
    if Blank(b.jpText) && IsMonologue(b.enText) then b1.(enText := "") else b1
  }

  /** How many fields of one block the pass clears. */
  function BlockCleaned(b: Block): nat {
    (if IsMonologue(b.enName) then 1 else 0) + (if Blank(b.jpText) && IsMonologue(b.enText) then 1 else 0)
  }

  /** The count the pass reports for a block is the number of its fields
      that change. */
  lemma BlockCleanedChanges(b: Block)
    ensures BlockCleaned(b) == (if CleanBlock(b).enName != b.enName then 1 else 0)
                             + (if CleanBlock(b).enText != b.enText then 1 else 0)
  {
    assert IsMonologue(b.enName) ==> b.enName != [];
    assert IsMonologue(b.enText) ==> b.enText != [];
  }

  function CleanAll(bs: seq<Block>): (r: seq<Block>)
    ensures |r| == |bs| && forall i :: 0 <= i < |bs| ==> r[i] == CleanBlock(bs[i])
  {
    seq(|bs|, i requires 0 <= i < |bs| => CleanBlock(bs[i]))
  }

  function Cleaned(bs: seq<Block>): nat {
    if bs == [] then 0 else Cleaned(bs[..|bs| - 1]) + BlockCleaned(bs[|bs| - 1])
  }

  /** The pass changes no source text, block index or choice, and leaves no
      "Monologue" name behind. */
  lemma CleanAllShape(bs: seq<Block>)
    ensures SameShape(bs, CleanAll(bs))
    ensures forall i :: 0 <= i < |bs| ==> CleanAll(bs)[i].choices == bs[i].choices
    ensures forall i :: 0 <= i < |bs| ==> !IsMonologue(CleanAll(bs)[i].enName)
  {
  }

  /** Running the pass twice is running it once: the second run finds
      nothing to clear. */
  lemma {:induction false} CleanIdempotent(bs: seq<Block>)
    ensures CleanAll(CleanAll(bs)) == CleanAll(bs)
    ensures Cleaned(CleanAll(bs)) == 0
  {
    var r := CleanAll(bs);
    forall i | 0 <= i < |bs| ensures CleanBlock(r[i]) == r[i] && BlockCleaned(r[i]) == 0 {
      assert !IsMonologue(r[i].enName);
    }
    CleanedZero(r);
  }

  lemma {:induction false} CleanedZero(bs: seq<Block>)
    requires forall i :: 0 <= i < |bs| ==> BlockCleaned(bs[i]) == 0
    ensures Cleaned(bs) == 0
  {
    if bs != [] {
      CleanedZero(bs[..|bs| - 1]);
    }
  }
}
