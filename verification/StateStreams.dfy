/** Contract-state streams of the indexer provider: what each start configuration emits, as sequences. */
module StateStreams {
  import opened Results
  import opened Seqs

  // Blocks

  type Address = string
  type State = string

  datatype Action = Action(address: Address, state: State)

  datatype Transaction = Transaction(identifiers: seq<string>, actions: seq<Action>)

  datatype Block = Block(hash: string, transactions: seq<Transaction>)

  // The chain so far: block `h` has height `h`.
  type Chain = seq<Block>

  function ActionsOf(): Transaction -> seq<Action> {
    (t: Transaction) => t.actions
  }

  function IsFor(a: Address): Action -> bool {
    (x: Action) => x.address == a
  }

  function StateOf(): Action -> State {
    (x: Action) => x.state
  }

  /** `blockToContractState$`. */
  function BlockStates(a: Address, b: Block): seq<State> {
    Map(StateOf(), Filter(IsFor(a), ConcatMap(ActionsOf(), b.transactions)))
  }

  function StatesIn(a: Address): Block -> seq<State> {
    (b: Block) => BlockStates(a, b)
  }

  /** The subscription from an existing block on: that block, and every later one as it arrives. */
  function BlocksFrom(chain: Chain, height: nat): seq<Block> {
    Skip(height, chain)
  }

  /** The stream of a `blockHeight` configuration. */
  function HeightStream(chain: Chain, a: Address, height: nat, inclusive: bool): seq<State> {
    var blocks := BlocksFrom(chain, height);
    ConcatMap(StatesIn(a), if inclusive then blocks else Skip(1, blocks))
  }

  function HeightOfHash(chain: Chain, hash: string): Option<nat> {
    if chain == [] then None
    else if chain[0].hash == hash then Some(0)
    else (match HeightOfHash(chain[1..], hash) case Some(h) => Some(h + 1) case None => None)
  }

  /** The stream of a `blockHash` configuration; silent until the block appears. */
  function HashStream(chain: Chain, a: Address, hash: string, inclusive: bool): seq<State> {
    match HeightOfHash(chain, hash)
    case None => []
    case Some(h) => HeightStream(chain, a, h, inclusive)
  }

  // What the streams should emit

  /** An action with the height of its block. */
  datatype Located = Located(height: nat, action: Action)

  function Locate(height: nat, xs: seq<Action>): seq<Located> {
    seq(|xs|, i requires 0 <= i < |xs| => Located(height, xs[i]))
  }

  function BlockActions(b: Block): seq<Action> {
    ConcatMap(ActionsOf(), b.transactions)
  }

  /** Every action on the chain, in order; the first block of `blocks` has the given height. */
  function Ledger(blocks: seq<Block>, height: nat): seq<Located> {
    if blocks == [] then [] else Locate(height, BlockActions(blocks[0])) + Ledger(blocks[1..], height + 1)
  }

  predicate Wanted(a: Address, from: nat, x: Located) {
    x.action.address == a && x.height >= from
  }

  /** The states of a contract from a height on, picked one by one. */
  function Pick(a: Address, from: nat, xs: seq<Located>): seq<State> {
    if xs == [] then []
    else (if Wanted(a, from, xs[0]) then [xs[0].action.state] else []) + Pick(a, from, xs[1..])
  }

  /** The whole history of a contract. */
  function History(chain: Chain, a: Address): seq<State> {
    Pick(a, 0, Ledger(chain, 0))
  }

  lemma {:induction false} PickConcat(a: Address, from: nat, xs: seq<Located>, ys: seq<Located>)
    ensures Pick(a, from, xs + ys) == Pick(a, from, xs) + Pick(a, from, ys)
  {
    if xs == [] {
      assert xs + ys == ys;
    } else {
      var first := if Wanted(a, from, xs[0]) then [xs[0].action.state] else [];
      PickConcat(a, from, xs[1..], ys);
      assert (xs + ys)[0] == xs[0] && (xs + ys)[1..] == xs[1..] + ys;
      assert first + (Pick(a, from, xs[1..]) + Pick(a, from, ys)) == first + Pick(a, from, xs[1..]) + Pick(a, from, ys);
    }
  }

  lemma {:induction false} PickLocated(a: Address, from: nat, height: nat, xs: seq<Action>)
    ensures Pick(a, from, Locate(height, xs)) == if height >= from then Map(StateOf(), Filter(IsFor(a), xs)) else []
  {
    if xs != [] {
      assert Locate(height, xs)[1..] == Locate(height, xs[1..]);
      PickLocated(a, from, height, xs[1..]);
      var head := if IsFor(a)(xs[0]) then [xs[0]] else [];
      MapConcat(StateOf(), head, Filter(IsFor(a), xs[1..]));
      assert Map(StateOf(), [xs[0]]) == [xs[0].state];
    }
  }

  lemma {:induction false} PickBlocks(a: Address, from: nat, blocks: seq<Block>, height: nat)
    ensures Pick(a, from, Ledger(blocks, height))
            == ConcatMap(StatesIn(a), Skip(if from >= height then from - height else 0, blocks))
  {
    if blocks != [] {
      PickLocated(a, from, height, BlockActions(blocks[0]));
      PickConcat(a, from, Locate(height, BlockActions(blocks[0])), Ledger(blocks[1..], height + 1));
      PickBlocks(a, from, blocks[1..], height + 1);
      if from > height {
        assert Skip(from - height, blocks) == Skip(from - (height + 1), blocks[1..]);
      }
    }
  }

  /** From a height on, the stream is every action for the contract in that block and the later ones, or only the later ones. */
  lemma HeightStreamMeaning(chain: Chain, a: Address, height: nat, inclusive: bool)
    ensures HeightStream(chain, a, height, inclusive) == Pick(a, if inclusive then height else height + 1, Ledger(chain, 0))
  {
    PickBlocks(a, if inclusive then height else height + 1, chain, 0);
    assert Skip(1, Skip(height, chain)) == Skip(height + 1, chain);
  }

  predicate IsSuffix(s: seq<State>, whole: seq<State>) {
    |s| <= |whole| && whole[|whole| - |s|..] == s
  }

  /** Every such stream is a suffix of the contract's history. */
  lemma HeightStreamIsSuffix(chain: Chain, a: Address, height: nat, inclusive: bool)
    ensures IsSuffix(HeightStream(chain, a, height, inclusive), History(chain, a))
  {
    var from := if inclusive then height else height + 1;
    HeightStreamMeaning(chain, a, height, inclusive);
    PickBlocks(a, from, chain, 0);
    PickBlocks(a, 0, chain, 0);
    var k := if from <= |chain| then from else |chain|;
    assert chain == chain[..k] + chain[k..];
    ConcatMapConcat(StatesIn(a), chain[..k], chain[k..]);
  }

  /** When blocks arrive, the stream goes on where it was: nothing emitted changes, and only their states follow. */
  lemma HeightStreamGrows(chain: Chain, more: seq<Block>, a: Address, height: nat, inclusive: bool)
    requires height < |chain|
    ensures HeightStream(chain + more, a, height, inclusive)
            == HeightStream(chain, a, height, inclusive) + ConcatMap(StatesIn(a), more)
  {
    var k := if inclusive then height else height + 1;
    assert Skip(1, Skip(height, chain)) == Skip(height + 1, chain);
    assert Skip(1, Skip(height, chain + more)) == Skip(height + 1, chain + more);
    assert (chain + more)[k..] == chain[k..] + more;
    ConcatMapConcat(StatesIn(a), chain[k..], more);
  }

  /** Also before the block exists: a stream is never taken back. */
  lemma HeightStreamOnlyAppends(chain: Chain, more: seq<Block>, a: Address, height: nat, inclusive: bool)
    ensures HeightStream(chain, a, height, inclusive) <= HeightStream(chain + more, a, height, inclusive)
  {
    if height < |chain| {
      HeightStreamGrows(chain, more, a, height, inclusive);
    }
  }

  predicate DistinctHashes(chain: Chain) {
    forall i, j :: 0 <= i < j < |chain| ==> chain[i].hash != chain[j].hash
  }

  lemma {:induction false} HeightOfHashAt(chain: Chain, h: nat)
    requires h < |chain| && DistinctHashes(chain)
    ensures HeightOfHash(chain, chain[h].hash) == Some(h)
  {
    if h > 0 {
      assert chain[1..][h - 1] == chain[h];
      HeightOfHashAt(chain[1..], h - 1);
    }
  }

  /** Starting at a block's hash is starting at its height. */
  lemma HashStreamIsHeightStream(chain: Chain, a: Address, h: nat, inclusive: bool)
    requires h < |chain| && DistinctHashes(chain)
    ensures HashStream(chain, a, chain[h].hash, inclusive) == HeightStream(chain, a, h, inclusive)
  {
    HeightOfHashAt(chain, h);
  }

  lemma {:induction false} HeightOfHashIff(chain: Chain, hash: string)
    ensures match HeightOfHash(chain, hash)
            case Some(h) => h < |chain| && chain[h].hash == hash && forall i :: 0 <= i < h ==> chain[i].hash != hash
            case None => forall i :: 0 <= i < |chain| ==> chain[i].hash != hash
  {
    if chain != [] {
      HeightOfHashIff(chain[1..], hash);
      assert forall i :: 0 < i < |chain| ==> chain[i] == chain[1..][i - 1];
    }
  }

  predicate HasHash(chain: Chain, hash: string) {
    exists i :: 0 <= i < |chain| && chain[i].hash == hash
  }

  /** Before a block has the hash the stream is silent; then it is the stream from the first such block on. */
  lemma HashStreamMeaning(chain: Chain, a: Address, hash: string, inclusive: bool)
    ensures !HasHash(chain, hash) ==> HashStream(chain, a, hash, inclusive) == []
    ensures HasHash(chain, hash) ==>
              exists h :: 0 <= h < |chain| && chain[h].hash == hash && (forall i :: 0 <= i < h ==> chain[i].hash != hash)
                          && HashStream(chain, a, hash, inclusive) == HeightStream(chain, a, h, inclusive)
  {
    HeightOfHashIff(chain, hash);
  }

  lemma {:induction false} HeightOfHashStays(chain: Chain, more: seq<Block>, hash: string)
    requires HeightOfHash(chain, hash).Some?
    ensures HeightOfHash(chain + more, hash) == HeightOfHash(chain, hash)
  {
    assert (chain + more)[0] == chain[0] && (chain + more)[1..] == chain[1..] + more;
    if chain[0].hash != hash {
      HeightOfHashStays(chain[1..], more, hash);
    }
  }

  /** Nothing emitted is taken back when blocks arrive, also before the block with the hash does. */
  lemma HashStreamOnlyAppends(chain: Chain, more: seq<Block>, a: Address, hash: string, inclusive: bool)
    ensures HashStream(chain, a, hash, inclusive) <= HashStream(chain + more, a, hash, inclusive)
  {
    if HeightOfHash(chain, hash).Some? {
      HeightOfHashStays(chain, more, hash);
      HeightStreamOnlyAppends(chain, more, a, HeightOfHash(chain, hash).value, inclusive);
    }
  }

  // The latest state

  /** The height of the most recent block that acts on the contract. */
  function LatestHeight(chain: Chain, a: Address): (h: Option<nat>)
    ensures h.Some? ==> h.value < |chain| && BlockStates(a, chain[h.value]) != []
    ensures h.Some? ==> forall i :: h.value < i < |chain| ==> BlockStates(a, chain[i]) == []
    ensures h.None? ==> forall i :: 0 <= i < |chain| ==> BlockStates(a, chain[i]) == []
  {
    if chain == [] then None
    else if BlockStates(a, chain[|chain| - 1]) != [] then Some(|chain| - 1)
    else LatestHeight(chain[..|chain| - 1], a)
  }

  /** Subscribed when the chain was `chain`, observed when it has grown by `more`. */
  function LatestStream(chain: Chain, more: seq<Block>, a: Address): seq<State> {
    match LatestHeight(chain, a)
    case None => []
    case Some(h) => ConcatMap(StatesIn(a), BlocksFrom(chain + more, h))
  }

  lemma {:induction false} SilentBlocks(a: Address, blocks: seq<Block>)
    requires forall i :: 0 <= i < |blocks| ==> BlockStates(a, blocks[i]) == []
    ensures ConcatMap(StatesIn(a), blocks) == []
  {
    if blocks != [] {
      SilentBlocks(a, blocks[1..]);
    }
  }

  lemma FromBlock(chain: Chain, a: Address, h: nat)
    requires h < |chain|
    ensures HeightStream(chain, a, h, true) == StatesIn(a)(chain[h]) + ConcatMap(StatesIn(a), chain[h + 1..])
  {
    var blocks := Skip(h, chain);
    assert blocks[0] == chain[h] && blocks[1..] == chain[h + 1..];
  }

  lemma LatestBlock(chain: Chain, a: Address, h: nat)
    requires LatestHeight(chain, a) == Some(h)
    ensures HeightStream(chain, a, h, true) == BlockStates(a, chain[h])
  {
    FromBlock(chain, a, h);
    SilentBlocks(a, chain[h + 1..]);
  }

  /** The stream starts at the most recent block that acts on the contract, with all of that block, and then grows. */
  lemma LatestStreamMeaning(chain: Chain, more: seq<Block>, a: Address, h: nat)
    requires LatestHeight(chain, a) == Some(h)
    ensures LatestStream(chain, more, a) == BlockStates(a, chain[h]) + ConcatMap(StatesIn(a), more)
    ensures IsSuffix(LatestStream(chain, more, a), History(chain + more, a))
  {
    LatestBlock(chain, a, h);
    HeightStreamGrows(chain, more, a, h, true);
    HeightStreamIsSuffix(chain + more, a, h, true);
  }

  /**
    At subscription the stream is the last entries of the history, as many as the most recent acting block has actions
    for the contract. So it is the most recent state alone exactly when that block has a single one; otherwise older
    states come first.
   */
  lemma LatestFirstIff(chain: Chain, a: Address, h: nat)
    requires LatestHeight(chain, a) == Some(h)
    ensures var history, n := History(chain, a), |BlockStates(a, chain[h])|;
      && 1 <= n <= |history| && LatestStream(chain, [], a) == history[|history| - n..]
      && (LatestStream(chain, [], a) == history[|history| - 1..] <==> n == 1)
  {
    LatestNow(chain, a, h);
    SuffixLength(LatestStream(chain, [], a), History(chain, a));
  }

  lemma LatestNow(chain: Chain, a: Address, h: nat)
    requires LatestHeight(chain, a) == Some(h)
    ensures LatestStream(chain, [], a) == BlockStates(a, chain[h]) && IsSuffix(LatestStream(chain, [], a), History(chain, a))
  {
    LatestStreamMeaning(chain, [], a, h);
    assert chain + [] == chain;
    assert BlockStates(a, chain[h]) + [] == BlockStates(a, chain[h]);
  }

  lemma SuffixLength(s: seq<State>, whole: seq<State>)
    requires s != [] && IsSuffix(s, whole)
    ensures s == whole[|whole| - |s|..] && (s == whole[|whole| - 1..] <==> |s| == 1)
  {
    assert |whole[|whole| - 1..]| == 1;
  }

  predicate StartsOld(chain: Chain, a: Address) {
    var history, stream := History(chain, a), LatestStream(chain, [], a);
    history != [] && stream != [] && stream[0] != history[|history| - 1]
  }

  /** The documentation promises the most recent state first; two actions in one block break it. */
  lemma LatestMayStartOld()
    ensures StartsOld([Block("h", [Transaction(["i", "j"], [Action("c", "old"), Action("c", "new")])])], "c")
  {
    var b := Block("h", [Transaction(["i", "j"], [Action("c", "old"), Action("c", "new")])]);
    assert ConcatMap(ActionsOf(), b.transactions) == [Action("c", "old"), Action("c", "new")];
    assert Filter(IsFor("c"), [Action("c", "new")]) == [Action("c", "new")];
    assert Filter(IsFor("c"), [Action("c", "old"), Action("c", "new")]) == [Action("c", "old"), Action("c", "new")];
    assert Map(StateOf(), [Action("c", "new")]) == ["new"];
    assert BlockStates("c", b) == ["old", "new"];
    LatestFirstIff([b], "c", 0);
  }

  // Before there is anything to see

  /** The polls see the chain at these lengths, one after the other. */
  predicate Polls(chain: Chain, polls: seq<nat>) {
    && (forall i :: 0 <= i < |polls| ==> polls[i] <= |chain|)
    && (forall i, j :: 0 <= i < j < |polls| ==> polls[i] <= polls[j])
  }

  /** The first poll that sees an action for the contract. */
  function FirstHit(chain: Chain, a: Address, polls: seq<nat>): (k: nat)
    requires Polls(chain, polls)
    ensures k <= |polls| && forall i :: 0 <= i < k ==> LatestHeight(chain[..polls[i]], a).None?
    ensures k < |polls| ==> LatestHeight(chain[..polls[k]], a).Some?
  {
    if polls == [] || LatestHeight(chain[..polls[0]], a).Some? then 0
    else
      assert forall i :: 0 <= i < |polls[1..]| ==> polls[1..][i] == polls[i + 1];
      1 + FirstHit(chain, a, polls[1..])
  }

  /** The `latest` stream of a subscriber that polls until an action appears. */
  function PolledStream(chain: Chain, a: Address, polls: seq<nat>): seq<State>
    requires Polls(chain, polls)
  {
    var k := FirstHit(chain, a, polls);
    if k == |polls| then [] else LatestStream(chain[..polls[k]], chain[polls[k]..], a)
  }

  lemma {:induction false} OnlySilentBlocks(a: Address, blocks: seq<Block>)
    ensures ConcatMap(StatesIn(a), blocks) == [] <==> forall i :: 0 <= i < |blocks| ==> BlockStates(a, blocks[i]) == []
  {
    if blocks != [] {
      OnlySilentBlocks(a, blocks[1..]);
      assert forall i :: 0 < i < |blocks| ==> blocks[i] == blocks[1..][i - 1];
    }
  }

  lemma HistorySplit(chain: Chain, a: Address, h: nat)
    requires h <= |chain|
    ensures History(chain, a) == ConcatMap(StatesIn(a), chain[..h]) + HeightStream(chain, a, h, true)
  {
    PickBlocks(a, 0, chain, 0);
    ConcatMapSplit(StatesIn(a), chain, h);
  }

  lemma BackIsWhole<T>(front: seq<T>, back: seq<T>)
    ensures back == front + back <==> front == []
  {
    assert |front + back| == |front| + |back|;
  }

  /** A height stream is the whole history exactly when no earlier block acts on the contract. */
  lemma WholeHistoryIff(chain: Chain, a: Address, h: nat)
    requires h <= |chain|
    ensures HeightStream(chain, a, h, true) == History(chain, a) <==> forall i :: 0 <= i < h ==> BlockStates(a, chain[i]) == []
  {
    HistorySplit(chain, a, h);
    BackIsWhole(ConcatMap(StatesIn(a), chain[..h]), HeightStream(chain, a, h, true));
    OnlySilentBlocks(a, chain[..h]);
    assert forall i :: 0 <= i < h ==> chain[..h][i] == chain[i];
  }

  /**
    Nothing is emitted until a poll sees an action. Then the stream is the one from the most recent acting block that the
    poll sees, which is newer than the poll before it: a suffix of the history, and all of it exactly when no block
    before that one acts on the contract.
   */
  lemma PolledStreamMeaning(chain: Chain, a: Address, polls: seq<nat>)
    requires Polls(chain, polls)
    ensures var k, stream := FirstHit(chain, a, polls), PolledStream(chain, a, polls);
      if k == |polls| then stream == [] && (polls != [] ==> History(chain[..polls[|polls| - 1]], a) == [])
      else
        var h := LatestHeight(chain[..polls[k]], a).value;
        && stream == HeightStream(chain, a, h, true) && stream != [] && IsSuffix(stream, History(chain, a))
        && (k > 0 ==> h >= polls[k - 1])
        && (stream == History(chain, a) <==> forall i :: 0 <= i < h ==> BlockStates(a, chain[i]) == [])
  {
    var k := FirstHit(chain, a, polls);
    if k < |polls| {
      HitStream(chain, a, polls[k], LatestHeight(chain[..polls[k]], a).value);
      if k > 0 {
        HitIsNewer(chain, a, polls[k - 1], polls[k], LatestHeight(chain[..polls[k]], a).value);
      }
    } else if polls != [] {
      NothingSeen(chain[..polls[|polls| - 1]], a);
    }
  }

  lemma HitStream(chain: Chain, a: Address, n: nat, h: nat)
    requires n <= |chain| && LatestHeight(chain[..n], a) == Some(h)
    ensures var stream := LatestStream(chain[..n], chain[n..], a);
      && stream == HeightStream(chain, a, h, true) && stream != [] && IsSuffix(stream, History(chain, a))
      && (stream == History(chain, a) <==> forall i :: 0 <= i < h ==> BlockStates(a, chain[i]) == [])
  {
    assert chain[..n] + chain[n..] == chain;
    LatestStreamMeaning(chain[..n], chain[n..], a, h);
    WholeHistoryIff(chain, a, h);
  }

  lemma HitIsNewer(chain: Chain, a: Address, m: nat, n: nat, h: nat)
    requires m <= n <= |chain| && LatestHeight(chain[..m], a).None? && LatestHeight(chain[..n], a) == Some(h)
    ensures h >= m
  {
    assert forall i :: 0 <= i < m ==> chain[..m][i] == chain[i];
    assert chain[..n][h] == chain[h];
  }

  lemma NothingSeen(chain: Chain, a: Address)
    requires LatestHeight(chain, a).None?
    ensures History(chain, a) == []
  {
    PickBlocks(a, 0, chain, 0);
    SilentBlocks(a, chain);
  }
}
