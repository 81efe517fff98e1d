/** Client order ids on their way to the venue, which accepts no dashes, and back. */
module OrderIds {

  function Replace(id: string, from: char, to: char): (replaced: string)
    ensures |replaced| == |id|
    ensures forall i :: 0 <= i < |id| ==> replaced[i] == if id[i] == from then to else id[i]
  {
    seq(|id|, i requires 0 <= i < |id| => if id[i] == from then to else id[i])
  }

  function ToVenue(id: string): string { Replace(id, '-', 'Z') }

  function FromVenue(id: string): string { Replace(id, 'Z', '-') }

  /** The translation needs no table exactly for ids without a 'Z'. */
  lemma RoundTrip(id: string)
    ensures FromVenue(ToVenue(id)) == id <==> 'Z' !in id
  {
    var back := FromVenue(ToVenue(id));
    if 'Z' in id {
      var i :| 0 <= i < |id| && id[i] == 'Z';
      assert back[i] == '-';
    }
  }

  /** So two such ids never meet at the venue. */
  lemma Injective(a: string, b: string)
    requires 'Z' !in a && 'Z' !in b
    ensures ToVenue(a) == ToVenue(b) <==> a == b
  {
    RoundTrip(a);
    RoundTrip(b);
  }

  /** What the venue sees has no dash, and the venue's own dash-free ids come back from it unchanged. */
  lemma VenueSide(id: string)
    ensures '-' !in ToVenue(id)
    ensures '-' !in id ==> ToVenue(FromVenue(id)) == id
  {
  }
}
