/** The gateway's two-way index between base symbols and venue instrument ids. */
module InstrumentIndex {
  import opened Text
  import opened Wrappers

  datatype Instrument = Instrument(instId: string, instFamily: string, live: bool, ctVal: real, lotSz: real, minSz: real, tickSz: real)

  /** maxLmtSz is never filled in by the refresh, so it keeps its default 0. */
  datatype InstrumentInfo = InstrumentInfo(instId: string, ctVal: real, lotSz: real, minSz: real, tickSize: real, maxLmtSz: real)

  predicate HasMarker(s: string) {
    |s| >= 5 && (s[..5] == "XPERP" || HasMarker(s[1..]))
  }

  /** The part of an instrument id before its first dash. */
  function Base(instId: string): string {
    var dash := Find(instId, '-');
    if dash.Some? then instId[..dash.value] else instId
  }

  predicate Listed(x: Instrument) {
    x.live && Find(x.instId, '-').Some?
  }

  predicate Candidate(x: Instrument, base: string) {
    Listed(x) && Base(x.instId) == base
  }

  predicate IsXPerp(x: Instrument) { HasMarker(x.instFamily) }

  predicate LooksXPerp(x: Instrument) { HasMarker(x.instId) }

  function Info(x: Instrument): InstrumentInfo {
    InstrumentInfo(x.instId, if x.ctVal > 0.0 then x.ctVal else 1.0, x.lotSz, x.minSz, x.tickSz, 0.0)
  }

  /** The instrument that a base symbol resolves to after reading the whole catalogue. */
  function Choice(catalogue: seq<Instrument>, base: string): (at: Option<nat>)
    ensures at.Some? ==> at.value < |catalogue| && Candidate(catalogue[at.value], base)
  {
    if catalogue == [] then None
    else
      var n := |catalogue| - 1;
      var kept := Choice(catalogue[..n], base);
      if !Candidate(catalogue[n], base) then kept
      else if kept.Some? && (LooksXPerp(catalogue[kept.value]) || !IsXPerp(catalogue[n])) then kept
      else Some(n)
  }

  /** The first candidate, and the first one whose family carries the X-Perp marker. */
  function First(catalogue: seq<Instrument>, base: string, xPerp: bool): (at: Option<nat>)
    ensures at.Some? ==> at.value < |catalogue| && Candidate(catalogue[at.value], base) && (xPerp ==> IsXPerp(catalogue[at.value]))
  {
    if catalogue == [] then None
    else
      var n := |catalogue| - 1;
      var found := First(catalogue[..n], base, xPerp);
      if found.Some? then found
      else if Candidate(catalogue[n], base) && (xPerp ==> IsXPerp(catalogue[n])) then Some(n)
      else None
  }

  lemma {:induction false} FirstIsFirst(catalogue: seq<Instrument>, base: string, xPerp: bool, i: nat)
    requires i < |catalogue| && Candidate(catalogue[i], base) && (xPerp ==> IsXPerp(catalogue[i]))
    ensures First(catalogue, base, xPerp).Some? && First(catalogue, base, xPerp).value <= i
  {
    var n := |catalogue| - 1;
    if i < n {
      FirstIsFirst(catalogue[..n], base, xPerp, i);
    }
  }

  /** What the comments promise: the first live X-Perp of the base if there is one, otherwise its first live instrument. */
  function Preferred(catalogue: seq<Instrument>, base: string): Option<nat> {
    if First(catalogue, base, true).Some? then First(catalogue, base, true) else First(catalogue, base, false)
  }

  /** The X-Perp marker of candidate i shows in its id. */
  predicate MarkerShows(catalogue: seq<Instrument>, i: nat)
    requires i < |catalogue|
  {
    LooksXPerp(catalogue[i]) <==> IsXPerp(catalogue[i])
  }

  ghost predicate NoXPerpAfter(catalogue: seq<Instrument>, base: string, i: nat) {
    forall j :: i < j < |catalogue| && Candidate(catalogue[j], base) ==> !IsXPerp(catalogue[j])
  }

  /**
   The replacement test looks at the family of the newcomer but at the id of the incumbent. Where the two
   disagree the preference can fail; this is when it does not: the first candidate does not merely look
   like an X-Perp, and the first X-Perp either shows the marker in its id or is the only one.
   */
  ghost predicate Undisputed(catalogue: seq<Instrument>, base: string) {
    var first, perp := First(catalogue, base, false), First(catalogue, base, true);
    perp.Some? ==>
      && (first.Some? ==> IsXPerp(catalogue[first.value]) || !LooksXPerp(catalogue[first.value]))
      && (LooksXPerp(catalogue[perp.value]) || NoXPerpAfter(catalogue, base, perp.value))
  }

  /** How the choice relates to the first candidate and the first X-Perp, case by case. */
  ghost predicate ChoiceCase(catalogue: seq<Instrument>, base: string, first: Option<nat>, perp: Option<nat>, choice: Option<nat>) {
    && (forall at :: at in [first, perp, choice] && at.Some? ==> at.value < |catalogue|)
    && (first.None? <==> choice.None?)
    && (perp.None? ==> choice == first)
    && (perp.Some? ==>
          && first.Some? && first.value <= perp.value
          && (IsXPerp(catalogue[first.value]) <==> first == perp)
          && if first != perp && LooksXPerp(catalogue[first.value]) then choice == first
             else if LooksXPerp(catalogue[perp.value]) then choice == perp
             else choice.value >= perp.value && (choice == perp <==> NoXPerpAfter(catalogue, base, perp.value)))
    && (first.Some? && perp.None? ==> !IsXPerp(catalogue[first.value]))
  }

  lemma NoXPerpAfterSnoc(before: seq<Instrument>, x: Instrument, base: string, i: nat)
    requires i < |before|
    ensures NoXPerpAfter(before + [x], base, i) <==> NoXPerpAfter(before, base, i) && !(Candidate(x, base) && IsXPerp(x))
  {
    var all := before + [x];
    assert all[|before|] == x;
    assert forall j :: 0 <= j < |before| ==> all[j] == before[j];
  }

  lemma ChoiceCaseSnoc(before: seq<Instrument>, x: Instrument, base: string, first: Option<nat>, perp: Option<nat>, choice: Option<nat>)
    requires Candidate(x, base) && ChoiceCase(before, base, first, perp, choice)
    ensures
      var next := Some(|before|);
      var kept := choice.Some? && (LooksXPerp(before[choice.value]) || !IsXPerp(x));
      ChoiceCase(before + [x], base, if first.Some? then first else next, if perp.Some? || !IsXPerp(x) then perp else next,
                 if kept then choice else next)
  {
    assert (before + [x])[|before|] == x;
    if perp.Some? {
      NoXPerpAfterSnoc(before, x, base, perp.value);
    }
  }

  lemma {:induction false} ChoiceCases(catalogue: seq<Instrument>, base: string)
    ensures ChoiceCase(catalogue, base, First(catalogue, base, false), First(catalogue, base, true), Choice(catalogue, base))
  {
    if catalogue != [] {
      var n := |catalogue| - 1;
      var before, x := catalogue[..n], catalogue[n];
      var first, perp, choice := First(before, base, false), First(before, base, true), Choice(before, base);
      ChoiceCases(before, base);
      assert catalogue == before + [x];
      if Candidate(x, base) {
        ChoiceCaseSnoc(before, x, base, first, perp, choice);
      } else if perp.Some? {
        NoXPerpAfterSnoc(before, x, base, perp.value);
      }
    }
  }

  /** A base resolves to the preferred instrument exactly when the catalogue is undisputed for it. */
  lemma PreferenceExact(catalogue: seq<Instrument>, base: string)
    ensures Choice(catalogue, base) == Preferred(catalogue, base) <==> Undisputed(catalogue, base)
  {
    ChoiceCases(catalogue, base);
  }

  /** In particular when every candidate shows its marker in its id. */
  lemma PreferenceHolds(catalogue: seq<Instrument>, base: string)
    requires forall i :: 0 <= i < |catalogue| && Candidate(catalogue[i], base) ==> MarkerShows(catalogue, i)
    ensures Choice(catalogue, base) == Preferred(catalogue, base)
  {
    var first, perp := First(catalogue, base, false), First(catalogue, base, true);
    if first.Some? {
      assert MarkerShows(catalogue, first.value);
    }
    if perp.Some? {
      assert MarkerShows(catalogue, perp.value);
    }
    PreferenceExact(catalogue, base);
  }

  // ----- in terms of characters and fields -----------------------------------------------------

  predicate MarkerAt(s: string, i: int) {
    0 <= i && i + 5 <= |s| && s[i] == 'X' && s[i + 1] == 'P' && s[i + 2] == 'E' && s[i + 3] == 'R' && s[i + 4] == 'P'
  }

  lemma {:induction false} MarkerExactly(s: string)
    ensures HasMarker(s) <==> exists i :: MarkerAt(s, i)
  {
    if |s| >= 5 {
      assert s[..5] == "XPERP" <==> MarkerAt(s, 0);
      MarkerExactly(s[1..]);
      forall i ensures MarkerAt(s[1..], i) ==> MarkerAt(s, i + 1) {}
      forall i | i >= 1 ensures MarkerAt(s, i) ==> MarkerAt(s[1..], i - 1) {}
    }
  }

  /** The instrument is live and its id is the symbol, which has no dash, followed by one. */
  predicate TradedAs(x: Instrument, symbol: string) {
    x.live && '-' !in symbol && |symbol| < |x.instId| && x.instId[..|symbol|] == symbol && x.instId[|symbol|] == '-'
  }

  lemma CandidateExactly(x: Instrument, base: string)
    ensures Candidate(x, base) <==> TradedAs(x, base)
  {
    FindsFirst(x.instId, '-');
    if TradedAs(x, base) {
      FindBehind(base, x.instId[|base| + 1..], '-');
      assert x.instId == base + ['-'] + x.instId[|base| + 1..];
    }
  }

  ghost predicate PerpAs(x: Instrument, symbol: string) {
    TradedAs(x, symbol) && exists k :: MarkerAt(x.instFamily, k)
  }

  /** Number i is the first X-Perp traded as the symbol, or there is none and it is the first instrument traded so. */
  ghost predicate FirstChoice(catalogue: seq<Instrument>, symbol: string, i: nat) {
    && i < |catalogue| && TradedAs(catalogue[i], symbol)
    && (PerpAs(catalogue[i], symbol) || forall j :: 0 <= j < |catalogue| ==> !PerpAs(catalogue[j], symbol))
    && (forall j :: 0 <= j < i ==> if PerpAs(catalogue[i], symbol) then !PerpAs(catalogue[j], symbol) else !TradedAs(catalogue[j], symbol))
  }

  lemma PreferredExactly(catalogue: seq<Instrument>, symbol: string, i: nat)
    ensures Preferred(catalogue, symbol) == Some(i) <==> FirstChoice(catalogue, symbol, i)
    ensures Preferred(catalogue, symbol).None? <==> forall j :: 0 <= j < |catalogue| ==> !TradedAs(catalogue[j], symbol)
  {
    forall j | 0 <= j < |catalogue|
      ensures TradedAs(catalogue[j], symbol) <==> Candidate(catalogue[j], symbol)
      ensures PerpAs(catalogue[j], symbol) <==> Candidate(catalogue[j], symbol) && IsXPerp(catalogue[j])
      ensures TradedAs(catalogue[j], symbol) ==> First(catalogue, symbol, false).Some? && First(catalogue, symbol, false).value <= j
      ensures PerpAs(catalogue[j], symbol) ==> First(catalogue, symbol, true).Some? && First(catalogue, symbol, true).value <= j
    {
      CandidateExactly(catalogue[j], symbol);
      MarkerExactly(catalogue[j].instFamily);
      if Candidate(catalogue[j], symbol) {
        FirstIsFirst(catalogue, symbol, false, j);
        if IsXPerp(catalogue[j]) {
          FirstIsFirst(catalogue, symbol, true, j);
        }
      }
    }
  }

  /** The two maps are exact inverses. */
  ghost predicate Inverse(instruments: map<string, InstrumentInfo>, symbols: map<string, string>) {
    && (forall b :: b in instruments ==> instruments[b].instId in symbols && symbols[instruments[b].instId] == b)
    && (forall id :: id in symbols ==> symbols[id] in instruments && instruments[symbols[id]].instId == id)
  }

  /** Every base resolves to its choice among the instruments read so far. */
  ghost predicate Resolves(instruments: map<string, InstrumentInfo>, read: seq<Instrument>) {
    && (forall b :: b in instruments <==> Choice(read, b).Some?)
    && (forall b :: b in instruments ==> instruments[b] == Info(read[Choice(read, b).value]))
  }

  /**
   After a refresh a symbol is known exactly if some instrument of the catalogue is traded as it, and its
   numbers are those of one of them: of the first choice whenever the catalogue is undisputed.
   */
  lemma RefreshExactly(catalogue: seq<Instrument>, instruments: map<string, InstrumentInfo>, symbols: map<string, string>, symbol: string)
    requires Inverse(instruments, symbols) && Resolves(instruments, catalogue)
    ensures symbol in instruments <==> exists i :: 0 <= i < |catalogue| && TradedAs(catalogue[i], symbol)
    ensures symbol in instruments ==>
      && symbols[instruments[symbol].instId] == symbol
      && (exists i :: 0 <= i < |catalogue| && Describes(catalogue[i], symbol, instruments[symbol]) &&
            (Undisputed(catalogue, symbol) ==> FirstChoice(catalogue, symbol, i)))
  {
    PreferredExactly(catalogue, symbol, 0);
    PreferenceExact(catalogue, symbol);
    ChoiceCases(catalogue, symbol);
    if symbol in instruments {
      var i := Choice(catalogue, symbol).value;
      CandidateExactly(catalogue[i], symbol);
      PreferredExactly(catalogue, symbol, i);
      assert Describes(catalogue[i], symbol, instruments[symbol]);
    }
  }

  predicate Describes(x: Instrument, symbol: string, info: InstrumentInfo) {
    && TradedAs(x, symbol) && info.instId == x.instId && info.lotSz == x.lotSz && info.minSz == x.minSz && info.tickSize == x.tickSz
    && info.ctVal == (if x.ctVal > 0.0 then x.ctVal else 1.0) && info.maxLmtSz == 0.0
  }

  predicate Kept(instruments: map<string, InstrumentInfo>, x: Instrument) {
    !Listed(x) || (Base(x.instId) in instruments && (HasMarker(instruments[Base(x.instId)].instId) || !IsXPerp(x)))
  }

  lemma ResolvesSnoc(instruments: map<string, InstrumentInfo>, read: seq<Instrument>, x: Instrument)
    requires Resolves(instruments, read)
    ensures Resolves(if Kept(instruments, x) then instruments else instruments[Base(x.instId) := Info(x)], read + [x])
  {
    var now := read + [x];
    assert now[..|read|] == read && now[|read|] == x;
    forall b ensures Choice(now, b) == if Kept(instruments, x) || Base(x.instId) != b then Choice(read, b) else Some(|read|) {
      assert b in instruments <==> Choice(read, b).Some?;
    }
  }

  /** An id starts with its base, so replacing what one base resolves to cannot touch the id of another. */
  lemma InverseSnoc(instruments: map<string, InstrumentInfo>, symbols: map<string, string>, x: Instrument)
    requires Inverse(instruments, symbols)
    requires forall b :: b in instruments ==> Base(instruments[b].instId) == b
    ensures
      var base := Base(x.instId);
      var rest := if base in instruments then symbols - {instruments[base].instId} else symbols;
      Inverse(instruments[base := Info(x)], rest[x.instId := base])
  {
    var base, info := Base(x.instId), Info(x);
    var rest := if base in instruments then symbols - {instruments[base].instId} else symbols;
    assert x.instId !in rest by {
      if x.instId in symbols {
        assert symbols[x.instId] == base;
      }
    }
    var instruments', symbols' := instruments[base := info], rest[x.instId := base];
    forall b | b in instruments' ensures instruments'[b].instId in symbols' && symbols'[instruments'[b].instId] == b {
      if b != base {
        assert symbols[instruments[b].instId] == b;
      }
    }
    forall id | id in symbols' ensures symbols'[id] in instruments' && instruments'[symbols'[id]].instId == id {
      if id != x.instId {
        assert instruments[symbols[id]].instId == id;
      }
    }
  }

  class InstrumentIndex {
    var instruments: map<string, InstrumentInfo>
    var instIdToSymbol: map<string, string>

    constructor ()
      ensures instruments == map[] && instIdToSymbol == map[]
    {
      instruments, instIdToSymbol := map[], map[];
    }

    method RefreshInstruments(catalogue: seq<Instrument>)
      modifies this
      ensures Inverse(instruments, instIdToSymbol) && Resolves(instruments, catalogue)
    {
      instruments, instIdToSymbol := map[], map[];
      for i := 0 to |catalogue|
        invariant Inverse(instruments, instIdToSymbol) && Resolves(instruments, catalogue[..i])
      {
        ResolvesSnoc(instruments, catalogue[..i], catalogue[i]);
        InverseSnoc(instruments, instIdToSymbol, catalogue[i]);
        assert catalogue[..i + 1] == catalogue[..i] + [catalogue[i]];
        Consider(catalogue[i]);
      }
      assert catalogue[..|catalogue|] == catalogue;
    }

    /** The body of the loop. */
    method Consider(instrument: Instrument)
      modifies this
      ensures instruments ==
              if Kept(old(instruments), instrument) then old(instruments) else old(instruments)[Base(instrument.instId) := Info(instrument)]
      ensures Kept(old(instruments), instrument) ==> instIdToSymbol == old(instIdToSymbol)
      ensures !Kept(old(instruments), instrument) ==>
        var base := Base(instrument.instId);
        var rest := if base in old(instruments) then old(instIdToSymbol) - {old(instruments)[base].instId} else old(instIdToSymbol);
        instIdToSymbol == rest[instrument.instId := base]
    {
      if !instrument.live {
        return;
      }
      var dash := Find(instrument.instId, '-');
      if dash.None? {
        return;
      }
      var symbol := instrument.instId[..dash.value];
      if symbol in instruments {
        var existing := instruments[symbol];
        if HasMarker(existing.instId) || !HasMarker(instrument.instFamily) {
          return;
        }
        instIdToSymbol := instIdToSymbol - {existing.instId};
      }
      instruments := instruments[symbol := Info(instrument)];
      instIdToSymbol := instIdToSymbol[instrument.instId := symbol];
    }
  }
}
