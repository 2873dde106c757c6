/** What the program takes from Go's strings package. */
module Strings {
  /** strings.TrimLeftFunc and strings.TrimRightFunc. */
  function TrimLeft(s: string, cut: char -> bool): string {
    if s != "" && cut(s[0]) then TrimLeft(s[1..], cut) else s
  }

  function TrimRight(s: string, cut: char -> bool): string {
    if s != "" && cut(s[|s| - 1]) then TrimRight(s[..|s| - 1], cut) else s
  }

  function TrimSpace(s: string, space: char -> bool): string {
    TrimRight(TrimLeft(s, space), space)
  }

  /** What is left is what stands between the outermost characters that are no white space. */
  lemma {:induction false} TrimSpaceExactly(before: string, s: string, after: string, space: char -> bool)
    requires forall i :: 0 <= i < |before| ==> space(before[i])
    requires forall i :: 0 <= i < |after| ==> space(after[i])
    requires s != "" ==> !space(s[0]) && !space(s[|s| - 1])
    ensures TrimSpace(before + s + after, space) == s
    decreases |before| + |after|
  {
    var all := before + s + after;
    if before != "" {
      assert all[1..] == before[1..] + s + after;
      TrimSpaceExactly(before[1..], s, after, space);
    } else if s != "" {
      assert all == s + after;
      TrimRightExactly(s, after, space);
    } else if after != "" {
      assert all[1..] == before + s + after[1..];
      TrimSpaceExactly(before, s, after[1..], space);
    }
  }

  lemma {:induction false} TrimRightExactly(s: string, after: string, space: char -> bool)
    requires forall i :: 0 <= i < |after| ==> space(after[i])
    requires s != "" && !space(s[|s| - 1])
    ensures TrimRight(s + after, space) == s
    decreases |after|
  {
    if after == "" {
      assert s + after == s;
    } else {
      assert (s + after)[..|s + after| - 1] == s + after[..|after| - 1];
      TrimRightExactly(s, after[..|after| - 1], space);
    }
  }
}
