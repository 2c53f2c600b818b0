/**
 What inserting blocks does to a chain, seen from outside: the stored blocks, their total
 difficulties and the head.  The canonical map is not a component; it is the path of the head.
 */
module Ledger {
  import opened BlockTree
  import opened ForkChoice

  datatype Ledger = Ledger(blocks: Store, td: map<Hash, nat>, head: Hash)

  /** One block offered for insertion, with the outcome of its state commit. */
  datatype Offer = Offer(block: Block, settings: Settings, commits: bool)

  ghost predicate Sound(l: Ledger, genesis: Block)
  {
    && WellFormed(l.blocks, genesis)
    && TotalsCorrect(l.blocks, l.td)
    && l.head in l.blocks
  }

  /** A total-difficulty read by hash and number. */
  function ReadTd(blocks: Store, td: map<Hash, nat>, h: Hash, number: int): Option<nat>
  {
    if Get(blocks, h, number).Some? && h in td then Some(td[h]) else None
  }

  /** The fork choice consulted about a stored block against the current head. */
  function Verdict(blocks: Store, td: map<Hash, nat>, head: Hash, b: Block, settings: Settings): ForkChoice.Verdict
    requires head in blocks
  {
    var current := blocks[head];
    ReorgNeeded(settings, ReadTd(blocks, td, head, current.number), ReadTd(blocks, td, b.hash, b.number), current, b)
  }

  /** Stores a block on top of its stored parent; without the parent nothing is stored. */
  ghost function Store(l: Ledger, b: Block): (r: Ledger)
  {
    var parent := ReadTd(l.blocks, l.td, b.parent, b.number - 1);
    if parent.None? then l
    else l.(blocks := l.blocks[b.hash := b], td := l.td[b.hash := parent.value + b.difficulty])
  }

  /** Stores a block and lets the fork choice decide whether it becomes the head. */
  ghost function Insert(l: Ledger, o: Offer): (r: Ledger)
    requires l.head in l.blocks
    ensures r.head in r.blocks
  {
    var stored := Store(l, o.block);
    if ReadTd(l.blocks, l.td, o.block.parent, o.block.number - 1).None? || !o.commits then stored
    else
      if Verdict(stored.blocks, stored.td, l.head, o.block, o.settings) == Decided(true)
      then stored.(head := o.block.hash)
      else stored
  }

  lemma {:induction false} StoreSound(l: Ledger, genesis: Block, b: Block)
    requires Sound(l, genesis) && Fits(l.blocks, b)
    ensures Sound(Store(l, b), genesis)
    ensures Extends(l.blocks, Store(l, b).blocks)
    ensures ReadTd(l.blocks, l.td, b.parent, b.number - 1).Some? ==>
              b.hash in Store(l, b).blocks && Store(l, b).blocks[b.hash] == b
  {
    var parent := ReadTd(l.blocks, l.td, b.parent, b.number - 1);
    if parent.Some? {
      InsertKeepsTotals(l.blocks, genesis, l.td, b);
      InsertKeepsWellFormed(l.blocks, genesis, b);
    }
  }

  /** Storing a block that is already stored changes nothing. */
  lemma {:induction false} StoreAgain(l: Ledger, genesis: Block, b: Block)
    requires Sound(l, genesis) && b.hash in l.blocks && l.blocks[b.hash] == b && b.number > 0
    ensures Store(l, b) == l
  {
    assert Placed(l.blocks, b.hash);
    assert l.td[b.hash] == TotalDifficulty(l.blocks, b.hash);
    assert l.td[b.parent] == TotalDifficulty(l.blocks, b.parent);
  }

  /** The head of `m` is no worse than the head of `l`, by total difficulty and then by height. */
  ghost predicate HeadNoWorse(l: Ledger, m: Ledger, genesis: Block)
    requires Sound(l, genesis) && Sound(m, genesis)
  {
    NoWorse(TotalDifficulty(l.blocks, l.head), l.blocks[l.head].number,
            TotalDifficulty(m.blocks, m.head), m.blocks[m.head].number)
  }

  /** An insertion keeps the ledger sound.  The head stays if the block's parent is missing or its state
      is not committed.  Otherwise the block becomes the head if it has reached the terminal
      difficulty or is heavier than the head; and before the terminal difficulty the head never gets
      worse. */
  lemma {:induction false} InsertSound(l: Ledger, genesis: Block, o: Offer)
    requires Sound(l, genesis) && Fits(l.blocks, o.block)
    ensures Sound(Insert(l, o), genesis)
    ensures Extends(l.blocks, Insert(l, o).blocks)
    ensures var m := Insert(l, o);
            var stored := Get(l.blocks, o.block.parent, o.block.number - 1).Some?;
            && (stored ==> o.block.hash in m.blocks && m.blocks[o.block.hash] == o.block)
            && (m.head == l.head || m.head == o.block.hash)
            && (!stored || !o.commits ==> m.head == l.head)
            && (stored && o.commits ==>
                  var total, before := TotalDifficulty(m.blocks, o.block.hash), TotalDifficulty(l.blocks, l.head);
                  && (Merged(o.settings.terminal, total) || total > before ==> m.head == o.block.hash)
                  && (!Merged(o.settings.terminal, total) ==> HeadNoWorse(l, m, genesis)))
            && (o.settings.terminal.None? ==> HeadNoWorse(l, m, genesis))
  {
    StoreSound(l, genesis, o.block);
    var stored := Store(l, o.block);
    TotalDifficultyStable(l.blocks, stored.blocks, l.head);
    if o.block.hash in stored.blocks && stored.blocks[o.block.hash] == o.block {
      ReplacementNoWorse(o.settings, stored.td[l.head], stored.td[o.block.hash], stored.blocks[l.head], o.block);
    }
  }
}
