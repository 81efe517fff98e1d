/** Searching in text. */
module Text {
  import opened Wrappers

  /** The first place of c. */
  function Find(s: string, c: char): (at: Option<nat>)
    ensures at.Some? ==> at.value < |s| && s[at.value] == c
  {
    if s == "" then None
    else if s[0] == c then Some(0)
    else
      var rest := Find(s[1..], c);
      if rest.Some? then Some(rest.value + 1) else None
  }

  lemma {:induction false} FindsFirst(s: string, c: char)
    ensures if Find(s, c).Some? then c !in s[..Find(s, c).value] else c !in s
  {
    if s != "" && s[0] != c {
      FindsFirst(s[1..], c);
      assert s == [s[0]] + s[1..];
      if Find(s, c).Some? {
        assert s[..Find(s, c).value] == [s[0]] + s[1..][..Find(s, c).value - 1];
      }
    }
  }

  lemma {:induction false} FindBehind(before: string, after: string, c: char)
    requires c !in before
    ensures Find(before + [c] + after, c) == Some(|before|)
  {
    if before != "" {
      FindBehind(before[1..], after, c);
      assert (before + [c] + after)[1..] == before[1..] + [c] + after;
    }
  }

  lemma Associates<T>(a: seq<T>, b: seq<T>, c: seq<T>)
    ensures a + b + c == a + (b + c)
  {
  }

  lemma TakesOneMore<T>(xs: seq<T>, i: nat)
    requires i < |xs|
    ensures xs[..i + 1] == xs[..i] + [xs[i]]
  {
  }
}
