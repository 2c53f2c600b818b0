/**
 The fork choice rule: whether a candidate header replaces the current head.
 The random draw and the miner's preserve function are parameters.
 */
module ForkChoice {
  import opened BlockTree

  datatype Verdict = Decided(reorg: bool) | MissingTd

  /** What one consultation of the fork choice depends on besides the two headers. */
  datatype Settings = Settings(
    terminal: Option<nat>,             // terminal total difficulty, absent on a pure proof-of-work chain
    preserve: Option<Block -> bool>,   // prefers locally mined blocks, absent on light clients
    coin: bool)                        // the draw falls below one half

  function Preserved(s: Settings, b: Block): bool
  {
    s.preserve.Some? && s.preserve.value(b)
  }

  function ReorgNeeded(s: Settings, localTd: Option<nat>, externTd: Option<nat>, current: Block, extern: Block): Verdict
  {
    if localTd.None? || externTd.None? then
      MissingTd
    else if s.terminal.Some? && s.terminal.value <= externTd.value then
      Decided(true)
    else if externTd.value > localTd.value then
      Decided(true)
    else if externTd.value < localTd.value then
      Decided(false)
    else if extern.number < current.number then
      Decided(true)
    else if extern.number == current.number then
      Decided(!Preserved(s, current) && (Preserved(s, extern) || s.coin))
    else
      Decided(false)
  }

  /** A head no worse than another: heavier, or as heavy and no higher. */
  predicate NoWorse(td: nat, number: nat, td': nat, number': nat)
  {
    td < td' || (td == td' && number' <= number)
  }

  lemma {:induction false} NoWorseTransitive(td: nat, n: nat, td': nat, n': nat, td'': nat, n'': nat)
    requires NoWorse(td, n, td', n') && NoWorse(td', n', td'', n'')
    ensures NoWorse(td, n, td'', n'')
  {
  }

  /** The candidate has reached the terminal difficulty, so that headers are trusted as they come. */
  predicate Merged(terminal: Option<nat>, externTd: nat)
  {
    terminal.Some? && externTd >= terminal.value
  }

  /** Up to the terminal difficulty a head is only replaced by one that is no worse, and a strictly
      heavier candidate always wins, whatever the coin and the preserve function say; from there on
      every candidate wins. */
  lemma {:induction false} ReplacementNoWorse(s: Settings, localTd: nat, externTd: nat, current: Block, extern: Block)
    ensures var v := ReorgNeeded(s, Some(localTd), Some(externTd), current, extern);
            && v.Decided?
            && (Merged(s.terminal, externTd) ==> v.reorg)
            && (v.reorg ==>
                  Merged(s.terminal, externTd) || NoWorse(localTd, current.number, externTd, extern.number))
            && (externTd > localTd ==> v.reorg)
            && (externTd == localTd && extern.number < current.number ==> v.reorg)
  {
  }

  /** Between a head and a candidate as heavy and as high, a preserved head stays and a preserved
      candidate replaces a head that is not, both for every coin; without either the coin decides. */
  lemma {:induction false} TieBroken(terminal: Option<nat>, preserve: Option<Block -> bool>, td: nat,
                                     current: Block, extern: Block)
    requires !Merged(terminal, td) && current.number == extern.number
    ensures var heads := ReorgNeeded(Settings(terminal, preserve, true), Some(td), Some(td), current, extern);
            var tails := ReorgNeeded(Settings(terminal, preserve, false), Some(td), Some(td), current, extern);
            var mine := preserve.Some? && preserve.value(current);
            var theirs := preserve.Some? && preserve.value(extern);
            && (heads == tails == Decided(false) <==> mine)
            && (heads == tails == Decided(true) <==> !mine && theirs)
            && (heads == Decided(true) && tails == Decided(false) <==> !mine && !theirs)
  {
  }

  /** Any other pair of heads is decided alike for every coin and preserve function. */
  lemma {:induction false} DecidedWithoutCoin(s: Settings, s': Settings, localTd: Option<nat>, externTd: Option<nat>,
                                              current: Block, extern: Block)
    requires s.terminal == s'.terminal
    requires || localTd != externTd || current.number != extern.number || localTd.None?
             || Merged(s.terminal, externTd.value)
    ensures ReorgNeeded(s, localTd, externTd, current, extern) == ReorgNeeded(s', localTd, externTd, current, extern)
    ensures ReorgNeeded(s, localTd, externTd, current, extern) == MissingTd <==> localTd.None? || externTd.None?
  {
  }

  // ----- a head that is left and taken again

  datatype Head = Head(td: nat, block: Block)

  /** The fork choice replaced each head of a sequence by the next, without a terminal difficulty and
      with one preserve function throughout. */
  ghost predicate Replaced(heads: seq<Head>, draws: seq<Settings>, preserve: Option<Block -> bool>)
  {
    && |heads| == |draws| + 1
    && (forall i :: 0 <= i < |draws| ==> draws[i].terminal.None? && draws[i].preserve == preserve)
    && (forall i :: 0 <= i < |draws| ==> Replaces(draws[i], heads[i], heads[i + 1]))
  }

  predicate Replaces(s: Settings, current: Head, extern: Head)
  {
    ReorgNeeded(s, Some(current.td), Some(extern.td), current.block, extern.block) == Decided(true)
  }

  lemma {:induction false} NoWorseAlong(heads: seq<Head>, draws: seq<Settings>, preserve: Option<Block -> bool>,
                                        i: nat, j: nat)
    requires Replaced(heads, draws, preserve) && i <= j < |heads|
    ensures NoWorse(heads[i].td, heads[i].block.number, heads[j].td, heads[j].block.number)
    decreases j
  {
    if i < j {
      var k := j - 1;
      NoWorseAlong(heads, draws, preserve, i, k);
      assert Replaces(draws[k], heads[k], heads[k + 1]);
      ReplacementNoWorse(draws[k], heads[k].td, heads[j].td, heads[k].block, heads[j].block);
      NoWorseTransitive(heads[i].td, heads[i].block.number, heads[k].td, heads[k].block.number,
                        heads[j].td, heads[j].block.number);
    }
  }

  /** A head can be taken again after it was left only among equally heavy heads of one height none
      of which is preserved, and then every single replacement was decided by the coin. */
  lemma {:induction false} ReturnOnlyByCoin(heads: seq<Head>, draws: seq<Settings>, preserve: Option<Block -> bool>,
                                            i: nat)
    requires Replaced(heads, draws, preserve) && draws != [] && heads[0] == heads[|draws|]
    requires i < |draws|
    ensures heads[i].td == heads[0].td && heads[i].block.number == heads[0].block.number
    ensures !Preserved(draws[i], heads[i].block) && draws[i].coin
  {
    NoWorseAlong(heads, draws, preserve, 0, i);
    NoWorseAlong(heads, draws, preserve, i, |draws|);
    NoWorseAlong(heads, draws, preserve, 0, i + 1);
    NoWorseAlong(heads, draws, preserve, i + 1, |draws|);
    assert Replaces(draws[i], heads[i], heads[i + 1]);
    if i + 1 < |draws| {
      assert Replaces(draws[i + 1], heads[i + 1], heads[i + 2]);
      NoWorseAlong(heads, draws, preserve, i + 2, |draws|);
      NoWorseAlong(heads, draws, preserve, 0, i + 2);
    } else {
      assert Replaces(draws[0], heads[0], heads[1]);
      NoWorseAlong(heads, draws, preserve, 1, |draws|);
    }
  }
}
