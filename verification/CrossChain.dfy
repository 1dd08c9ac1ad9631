/** The cross-chain index of `src/graph/cross_chain.py`. */
module CrossChain {
  import opened Common

  const KNOWN_BRIDGES: map<string, string> := map[
    "0xa0c68c638235ee32657e8f720a23cec1bfc77c77" := "Polygon PoS: RootChainManager",
    "0x40ec5b33f54e0e8a33a975908c5ba1c14e5bbbdf" := "Polygon PoS: ERC20 Predicate",
    "0x8484ef722627bf18ca5ae6bcf031c23e6e922b30" := "Polygon PoS: Ether Predicate",
    "0x401f6c983ea34274ec46f84d70b31c151321188b" := "Polygon: Plasma DepositManager",
    "0x3ee18b2214aff97000d974cf647e7c347e8fa585" := "Wormhole: Token Bridge",
    "0xa7d7079b0fead91f3e65f86e8915cb59c1a4c664" := "Across: SpokePool"
  ]

  const BRIDGED_ASSETS: map<string, string> := map[
    "0x2791bca1f2de4661ed88a30c99a7a9449aa84174" := "USDC.e (PoS-bridged USDC)",
    "0x7ceb23fd6bc0add59e62ac25578270cff1b9f619" := "WETH (PoS-bridged)",
    "0xc2132d05d31c914a87c6611c10748aeb04b58e8f" := "USDT (PoS-bridged)"
  ]

  /** ASCII lower-casing. */
  function Lower(s: string): string {
    seq(|s|, i requires 0 <= i < |s| => if 'A' <= s[i] <= 'Z' then s[i] - 'A' + 'a' else s[i])
  }

  function Lookup(registry: map<string, string>, a: Address): Option<string> {
    if a.Wallet? && Lower(a.name) in registry then Some(registry[Lower(a.name)]) else None
  }

  function BridgeName(a: Address): Option<string> { Lookup(KNOWN_BRIDGES, a) }

  function AssetName(a: Address): Option<string> { Lookup(BRIDGED_ASSETS, a) }

  /** The four dictionaries; a missing key counts as an empty set or zero. */
  datatype Index = Index(
    chains: map<Address, set<string>>,
    bridgeHits: map<Address, nat>,
    bridges: map<Address, set<string>>,
    assetHits: map<Address, nat>)

  const EMPTY_INDEX := Index(map[], map[], map[], map[])

  /** One transaction as `observe` sees it. */
  datatype Sighting = Sighting(from: Address, to: Address, chain: string)

  function Include(m: map<Address, set<string>>, on: bool, a: Address, name: string): map<Address, set<string>> {
    if on then m[a := (if a in m then m[a] else {}) + {name}] else m
  }

  function Bump(m: map<Address, nat>, on: bool, a: Address): map<Address, nat> {
    if on then m[a := (if a in m then m[a] else 0) + 1] else m
  }

  /** The bridge that a sighting touches; the recipient is looked up first. */
  function BridgeTouched(s: Sighting): Option<string> {
    if BridgeName(s.to).Some? then BridgeName(s.to) else BridgeName(s.from)
  }

  /** The wallet on the other side of the bridge. */
  function Actor(s: Sighting): Address {
    if BridgeName(s.to).Some? then s.from else s.to
  }

  predicate HitsBridge(s: Sighting) {
    BridgeTouched(s).Some? && Actor(s) != NoAddress
  }

  predicate HitsAsset(s: Sighting) {
    AssetName(s.to).Some? && s.from != NoAddress
  }

  function BridgeLabel(s: Sighting): string {
    if BridgeTouched(s).Some? then BridgeTouched(s).value else ""
  }

  /** `observe` as a function of the index. */
  function Observed(ix: Index, s: Sighting): Index {
    Index(
      Include(Include(ix.chains, s.from != NoAddress, s.from, s.chain), s.to != NoAddress, s.to, s.chain),
      Bump(ix.bridgeHits, HitsBridge(s), Actor(s)),
      Include(ix.bridges, HitsBridge(s), Actor(s), BridgeLabel(s)),
      Bump(ix.assetHits, HitsAsset(s), s.from))
  }

  lemma IncludeCommutes(m: map<Address, set<string>>, p: bool, a: Address, x: string, q: bool, b: Address, y: string)
    ensures Include(Include(m, p, a, x), q, b, y) == Include(Include(m, q, b, y), p, a, x)
  {
    if p && q && a == b {
      var was := if a in m then m[a] else {};
      assert (was + {x}) + {y} == (was + {y}) + {x};
    }
  }

  lemma BumpCommutes(m: map<Address, nat>, p: bool, a: Address, q: bool, b: Address)
    ensures Bump(Bump(m, p, a), q, b) == Bump(Bump(m, q, b), p, a)
  {
  }

  lemma ChainsCommute(m: map<Address, set<string>>, s: Sighting, t: Sighting)
    ensures
      Include(Include(Include(Include(m, s.from != NoAddress, s.from, s.chain), s.to != NoAddress, s.to, s.chain),
                      t.from != NoAddress, t.from, t.chain), t.to != NoAddress, t.to, t.chain)
      == Include(Include(Include(Include(m, t.from != NoAddress, t.from, t.chain), t.to != NoAddress, t.to, t.chain),
                         s.from != NoAddress, s.from, s.chain), s.to != NoAddress, s.to, s.chain)
  {
    hide Include;
    var sf, st, tf, tt := s.from != NoAddress, s.to != NoAddress, t.from != NoAddress, t.to != NoAddress;
    var m1 := Include(m, sf, s.from, s.chain);
    var m2 := Include(m, tf, t.from, t.chain);
    IncludeCommutes(m1, st, s.to, s.chain, tf, t.from, t.chain);
    IncludeCommutes(m, sf, s.from, s.chain, tf, t.from, t.chain);
    IncludeCommutes(Include(m2, sf, s.from, s.chain), st, s.to, s.chain, tt, t.to, t.chain);
    IncludeCommutes(m2, sf, s.from, s.chain, tt, t.to, t.chain);
  }

  /** The order of two observations does not matter to any of the four dictionaries. */
  lemma ObservedCommutes(ix: Index, s: Sighting, t: Sighting)
    ensures Observed(Observed(ix, s), t) == Observed(Observed(ix, t), s)
  {
    hide Include, Bump, HitsBridge, HitsAsset, BridgeLabel, Actor;
    ChainsCommute(ix.chains, s, t);
    BumpCommutes(ix.bridgeHits, HitsBridge(s), Actor(s), HitsBridge(t), Actor(t));
    IncludeCommutes(ix.bridges, HitsBridge(s), Actor(s), BridgeLabel(s), HitsBridge(t), Actor(t), BridgeLabel(t));
    BumpCommutes(ix.assetHits, HitsAsset(s), s.from, HitsAsset(t), t.from);
  }

  /** The index after `ss`, first to last. */
  function ObservedAll(ss: seq<Sighting>): Index {
    Fold((ix: Index, s: Sighting) => Observed(ix, s), EMPTY_INDEX, ss)
  }

  /** The whole index depends only on the multiset of sightings. */
  lemma ObservationOrder(ss: seq<Sighting>, ts: seq<Sighting>)
    requires multiset(ss) == multiset(ts)
    ensures ObservedAll(ss) == ObservedAll(ts)
  {
    hide Observed;
    var step := (ix: Index, s: Sighting) => Observed(ix, s);
    forall ix, s, t
      ensures step(step(ix, s), t) == step(step(ix, t), s)
    {
      ObservedCommutes(ix, s, t);
    }
    FoldPermutes(step, EMPTY_INDEX, ss, ts);
  }

  // ---- what the index says about the sightings ----

  predicate Involves(s: Sighting, a: Address) {
    a != NoAddress && (s.from == a || s.to == a)
  }

  /** `a` is the wallet that used the bridge: the sender to one, else the recipient from one. */
  predicate UsesBridge(s: Sighting, a: Address) {
    a != NoAddress
    && if BridgeName(s.to).Some? then s.from == a else BridgeName(s.from).Some? && s.to == a
  }

  /** `a` sent to the contract of a bridged asset. */
  predicate UsesAsset(s: Sighting, a: Address) {
    a != NoAddress && s.from == a && AssetName(s.to).Some?
  }

  /** The recipient is the bridge of this name, or else the sender is. */
  predicate Touches(s: Sighting, name: string) {
    BridgeName(s.to) == Some(name) || (BridgeName(s.to).None? && BridgeName(s.from) == Some(name))
  }

  function BridgeUses(ss: seq<Sighting>, a: Address): nat {
    if ss == [] then 0 else BridgeUses(ss[..|ss| - 1], a) + (if UsesBridge(ss[|ss| - 1], a) then 1 else 0)
  }

  function AssetUses(ss: seq<Sighting>, a: Address): nat {
    if ss == [] then 0 else AssetUses(ss[..|ss| - 1], a) + (if UsesAsset(ss[|ss| - 1], a) then 1 else 0)
  }

  function SetOf(m: map<Address, set<string>>, a: Address): set<string> {
    if a in m then m[a] else {}
  }

  lemma ObservedEntry(ix: Index, s: Sighting, a: Address)
    ensures var t := Observed(ix, s);
            && SetOf(t.chains, a) == SetOf(ix.chains, a) + (if Involves(s, a) then {s.chain} else {})
            && Hits(t.bridgeHits, a) == Hits(ix.bridgeHits, a) + (if UsesBridge(s, a) then 1 else 0)
            && SetOf(t.bridges, a) == SetOf(ix.bridges, a) + (if UsesBridge(s, a) then {BridgeLabel(s)} else {})
            && Hits(t.assetHits, a) == Hits(ix.assetHits, a) + (if UsesAsset(s, a) then 1 else 0)
  {
    IncludeEntry(ix.chains, s.from != NoAddress, s.from, s.chain, a);
    IncludeEntry(Include(ix.chains, s.from != NoAddress, s.from, s.chain), s.to != NoAddress, s.to, s.chain, a);
    BumpEntry(ix.bridgeHits, HitsBridge(s), Actor(s), a);
    IncludeEntry(ix.bridges, HitsBridge(s), Actor(s), BridgeLabel(s), a);
    BumpEntry(ix.assetHits, HitsAsset(s), s.from, a);
    hide BridgeName, AssetName, Include, Bump, SetOf, Hits, BridgeLabel;
  }

  lemma IncludeEntry(m: map<Address, set<string>>, on: bool, b: Address, x: string, a: Address)
    ensures SetOf(Include(m, on, b, x), a) == SetOf(m, a) + (if on && a == b then {x} else {})
  {
  }

  lemma BumpEntry(m: map<Address, nat>, on: bool, b: Address, a: Address)
    ensures Hits(Bump(m, on, b), a) == Hits(m, a) + (if on && a == b then 1 else 0)
  {
  }

  /** After any run, an address's chains are those it was seen on, its bridges
      those it used, and its hit counts the numbers of uses. */
  lemma {:induction false} IndexIsCensus(ss: seq<Sighting>, a: Address, name: string)
    ensures var ix := ObservedAll(ss);
            && (name in SetOf(ix.chains, a) <==> exists s :: s in ss && Involves(s, a) && s.chain == name)
            && (name in SetOf(ix.bridges, a) <==> exists s :: s in ss && UsesBridge(s, a) && Touches(s, name))
            && Hits(ix.bridgeHits, a) == BridgeUses(ss, a)
            && Hits(ix.assetHits, a) == AssetUses(ss, a)
  {
    hide Involves, UsesBridge, UsesAsset, BridgeLabel, Touches, Observed, SetOf, Hits;
    if ss == [] {
      EmptyEntry(a);
    } else {
      var front, last := ss[..|ss| - 1], ss[|ss| - 1];
      IndexIsCensus(front, a, name);
      ObservedEntry(ObservedAll(front), last, a);
      if UsesBridge(last, a) {
        LabelIsTouched(last, a, name);
      }
      assert forall s :: s in ss <==> s in front || s == last;
    }
  }

  lemma LabelIsTouched(s: Sighting, a: Address, name: string)
    requires UsesBridge(s, a)
    ensures BridgeLabel(s) == name <==> Touches(s, name)
  {
    hide BridgeName;
  }

  lemma {:induction false} UsesPositive(ss: seq<Sighting>, a: Address)
    ensures BridgeUses(ss, a) > 0 <==> exists i :: 0 <= i < |ss| && UsesBridge(ss[i], a)
    ensures AssetUses(ss, a) > 0 <==> exists i :: 0 <= i < |ss| && UsesAsset(ss[i], a)
  {
    hide UsesBridge, UsesAsset;
    if ss != [] {
      UsesPositive(ss[..|ss| - 1], a);
      assert forall i :: 0 <= i < |ss| ==> ss[i] == if i < |ss| - 1 then ss[..|ss| - 1][i] else ss[|ss| - 1];
    }
  }

  lemma EmptyEntry(a: Address)
    ensures SetOf(EMPTY_INDEX.chains, a) == SetOf(EMPTY_INDEX.bridges, a) == {}
    ensures Hits(EMPTY_INDEX.bridgeHits, a) == Hits(EMPTY_INDEX.assetHits, a) == 0
  {
  }

  // ---- the risk boost ----

  predicate CrossChainActor(ix: Index, a: Address) {
    a in ix.chains && |ix.chains[a]| > 1
  }

  function Hits(m: map<Address, nat>, a: Address): nat {
    if a in m then m[a] else 0
  }

  function Multiplier(cross: bool, bridged: bool, asset: bool): real {
    if cross && bridged then 1.4
    else if bridged then 1.25
    else if cross then 1.15
    else if asset then 1.08
    else 1.0
  }

  /** The multiplier applied to the composite score of `a`. */
  function RiskBoost(ix: Index, a: Address): real {
    Multiplier(CrossChainActor(ix, a), Hits(ix.bridgeHits, a) > 0, Hits(ix.assetHits, a) > 0)
  }

  ghost predicate OnTwoChains(ss: seq<Sighting>, a: Address) {
    exists s, t :: s in ss && t in ss && Involves(s, a) && Involves(t, a) && s.chain != t.chain
  }

  ghost predicate SomeBridge(ss: seq<Sighting>, a: Address) {
    exists i :: 0 <= i < |ss| && UsesBridge(ss[i], a)
  }

  ghost predicate SomeAsset(ss: seq<Sighting>, a: Address) {
    exists i :: 0 <= i < |ss| && UsesAsset(ss[i], a)
  }

  /** The boost after any run, from the sightings themselves: whether the wallet
      was seen on two chains, used a bridge, or sent to a bridged asset. */
  lemma BoostIsTable(ss: seq<Sighting>, a: Address)
    ensures RiskBoost(ObservedAll(ss), a)
         == if SomeBridge(ss, a) then (if OnTwoChains(ss, a) then 1.4 else 1.25)
            else if OnTwoChains(ss, a) then 1.15
            else if SomeAsset(ss, a) then 1.08
            else 1.0
  {
    UsesPositive(ss, a);
    IndexIsCensus(ss, a, "");
    SeenOnTwoChains(ss, a);
    hide UsesBridge, UsesAsset, OnTwoChains, ObservedAll, Hits, CrossChainActor, BridgeUses, AssetUses;
  }

  lemma SeenOnTwoChains(ss: seq<Sighting>, a: Address)
    ensures CrossChainActor(ObservedAll(ss), a) <==> OnTwoChains(ss, a)
  {
    hide Involves, ObservedAll;
    var chains := SetOf(ObservedAll(ss).chains, a);
    TwoElements(chains);
    forall name
      ensures name in chains <==> exists s :: s in ss && Involves(s, a) && s.chain == name
    {
      IndexIsCensus(ss, a, name);
    }
    if |chains| > 1 {
      var x, y :| x in chains && y in chains && x != y;
      var s :| s in ss && Involves(s, a) && s.chain == x;
      var t :| t in ss && Involves(t, a) && t.chain == y;
    }
    if s, t :| s in ss && t in ss && Involves(s, a) && Involves(t, a) && s.chain != t.chain {
      assert s.chain in chains && t.chain in chains;
    }
  }

  lemma TwoElements<T>(s: set<T>)
    ensures |s| > 1 <==> exists x, y :: x in s && y in s && x != y
  {
    if |s| > 1 {
      var x :| x in s;
      assert |s - {x}| == |s| - 1;
      var y :| y in s - {x};
    }
    if x, y :| x in s && y in s && x != y {
      SubsetSize({x, y}, s);
    }
  }

  /** Equal letters, or an upper-case one and its lower-case form. */
  predicate SameUpToCase(x: char, y: char) {
    x == y || ('A' <= x <= 'Z' && y as int == x as int + 32)
  }

  /** A registered contract is recognised however its letters are cased. */
  lemma LookupIgnoresCase(registry: map<string, string>, key: string, name: string)
    requires key in registry && forall i :: 0 <= i < |key| ==> !('A' <= key[i] <= 'Z')
    requires |name| == |key| && forall i :: 0 <= i < |name| ==> SameUpToCase(name[i], key[i])
    ensures Lookup(registry, Wallet(name)) == Some(registry[key])
  {
    forall i | 0 <= i < |key|
      ensures Lower(name)[i] == key[i]
    {
      assert SameUpToCase(name[i], key[i]);
    }
    assert Lower(name) == key;
  }

  lemma IncludeKeeps(m: map<Address, set<string>>, on: bool, b: Address, x: string, a: Address)
    requires a in m
    ensures a in Include(m, on, b, x) && m[a] <= Include(m, on, b, x)[a] && |m[a]| <= |Include(m, on, b, x)[a]|
  {
    if on && a == b {
      assert |m[a] + {x}| == |m[a]| + |{x} - m[a]|;
    }
  }

  /** Observing more never lowers a wallet's boost. */
  lemma BoostNeverDrops(ix: Index, s: Sighting, a: Address)
    ensures 1.0 <= RiskBoost(ix, a) <= RiskBoost(Observed(ix, s), a) <= 1.4
  {
    var t := Observed(ix, s);
    if CrossChainActor(ix, a) {
      IncludeKeeps(ix.chains, s.from != NoAddress, s.from, s.chain, a);
      IncludeKeeps(Include(ix.chains, s.from != NoAddress, s.from, s.chain), s.to != NoAddress, s.to, s.chain, a);
    }
    ObservedEntry(ix, s, a);
    assert CrossChainActor(ix, a) ==> CrossChainActor(t, a);
    hide Observed, CrossChainActor, Hits;
  }

  lemma {:induction false} BoostOverRun(ss: seq<Sighting>, k: nat, a: Address)
    requires k <= |ss|
    ensures RiskBoost(ObservedAll(ss[..k]), a) <= RiskBoost(ObservedAll(ss), a)
    decreases |ss|
  {
    if k < |ss| {
      var front := ss[..|ss| - 1];
      BoostOverRun(front, k, a);
      assert front[..k] == ss[..k];
      BoostNeverDrops(ObservedAll(front), ss[|ss| - 1], a);
      hide RiskBoost, Observed;
    } else {
      assert ss[..k] == ss;
    }
  }

  // ---- the analyzer itself ----

  /** The flags returned for one transaction; `chains` are those of a sender seen
      on more than one, and empty for any other. */
  datatype Flags = Flags(bridge: Option<string>, actor: Address, asset: Option<string>, chains: set<string>)

  class CrossChainAnalyzer {
    var chains: map<Address, set<string>>
    var bridgeHits: map<Address, nat>
    var bridgesTouched: map<Address, set<string>>
    var assetHits: map<Address, nat>

    function Contents(): Index
      reads this
    {
      Index(chains, bridgeHits, bridgesTouched, assetHits)
    }

    constructor ()
      ensures Contents() == EMPTY_INDEX
    {
      chains, bridgeHits, bridgesTouched, assetHits := map[], map[], map[], map[];
    }

    /** Both sides were seen on `chain`. */
    static method NoteChain(chains: map<Address, set<string>>, from: Address, to: Address, chain: string)
      returns (seen: map<Address, set<string>>)
      ensures seen == Include(Include(chains, from != NoAddress, from, chain), to != NoAddress, to, chain)
    {
      seen := chains;
      if from != NoAddress {
        seen := seen[from := (if from in seen then seen[from] else {}) + {chain}];
      }
      if to != NoAddress {
        seen := seen[to := (if to in seen then seen[to] else {}) + {chain}];
      }
    }

    static method NoteBridge(hits: map<Address, nat>, touched: map<Address, set<string>>, actor: Address, name: string)
      returns (hits': map<Address, nat>, touched': map<Address, set<string>>)
      ensures hits' == Bump(hits, actor != NoAddress, actor)
      ensures touched' == Include(touched, actor != NoAddress, actor, name)
    {
      hits', touched' := hits, touched;
      if actor != NoAddress {
        hits' := hits'[actor := (if actor in hits' then hits'[actor] else 0) + 1];
        touched' := touched'[actor := (if actor in touched' then touched'[actor] else {}) + {name}];
      }
    }

    /** A sender to the contract of a bridged asset is counted. */
    static method NoteAsset(hits: map<Address, nat>, from: Address, to: Address)
      returns (hits': map<Address, nat>, name: Option<string>)
      ensures hits' == Bump(hits, from != NoAddress && AssetName(to).Some?, from)
      ensures name == if from != NoAddress then AssetName(to) else None
    {
      hits', name := hits, None;
      var aname := AssetName(to);
      if aname.Some? && from != NoAddress {
        hits', name := hits'[from := (if from in hits' then hits'[from] else 0) + 1], aname;
      }
    }

    /** Records one transaction. */
    method Observe(from: Address, to: Address, chain: string) returns (flags: Flags)
      modifies this
      ensures Contents() == Observed(old(Contents()), Sighting(from, to, chain))
      ensures flags.chains
           == if from != NoAddress && CrossChainActor(Contents(), from) then SetOf(Contents().chains, from) else {}
      ensures flags.bridge == if BridgeName(to).Some? then BridgeName(to) else BridgeName(from)
      ensures flags.actor == if BridgeName(to).Some? then from else if BridgeName(from).Some? then to else NoAddress
      ensures flags.asset == if from != NoAddress then AssetName(to) else None
    {
      hide BridgeName, AssetName, CrossChainActor, Include;
      var seen := NoteChain(chains, from, to, chain);
      var hits, touched := bridgeHits, bridgesTouched;
      flags := Flags(None, NoAddress, None, {});
      var bname := if BridgeName(to).Some? then BridgeName(to) else BridgeName(from);
      if bname.Some? {
        var actor := if BridgeName(to).Some? then from else to;
        hits, touched := NoteBridge(hits, touched, actor, bname.value);
        flags := flags.(bridge := bname, actor := actor);
      }
      NotIncluded(touched);
      var assets, aname := NoteAsset(assetHits, from, to);
      flags := flags.(asset := aname);
      var ix := Index(seen, hits, touched, assets);
      assert ix == Observed(Contents(), Sighting(from, to, chain));
      if from != NoAddress && CrossChainActor(ix, from) {
        flags := flags.(chains := SetOf(ix.chains, from));
      }
      chains := seen;
      bridgeHits := hits;
      bridgesTouched := touched;
      assetHits := assets;
    }
  }

  lemma NotIncluded(m: map<Address, set<string>>)
    ensures forall a, x {:trigger Include(m, false, a, x)} :: Include(m, false, a, x) == m
  {
  }
}
