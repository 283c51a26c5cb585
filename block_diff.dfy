/** The block differ: which blocks of a new segmentation can reuse the
    rendering of an old one. Blocks are matched by a key (type and the first
    100 characters of content); each new block takes the first unused old
    block with its key. Then three passes emit, in this order, a `move` for
    every matched pair at different positions, a `remove` for every unused old
    block, and an `update` or `add` for every unmatched new block.

    The passes are functions over prefixes (MatchUpTo, RemovesUpTo, AddsUpTo)
    that take the key of every block as a sequence (the values getBlockKey
    produces); Diff supplies Keys(blocks). The method DiffBlocks, with its map
    of candidates and its two index sets, is proved equal to Diff. */
module BlockDiff {
  import opened Text
  import opened MarkdownBlocks

  datatype ChangeType = Add | Remove | Update | Move

  /** BlockChange: `block` is the new block, `oldBlock` the old one. */
  datatype BlockChange = BlockChange(ctype: ChangeType, index: nat, block: Option<Block>, oldBlock: Option<Block>)

  /** getBlockKey: the type name, a colon, and content.slice(0, 100). */
  function BlockKey(b: Block): string {
    TypeName(b.btype) + ":" + Prefix(b.content, 100)
  }

  /** In t + ":" + x with no colon in t, the first colon is at |t|. */
  lemma FirstColon(t: string, x: string)
    requires ':' !in t
    ensures (t + ":" + x)[|t|] == ':'
    ensures forall i :: 0 <= i < |t| ==> (t + ":" + x)[i] != ':'
  {
    assert forall i :: 0 <= i < |t| ==> (t + ":" + x)[i] == t[i];
  }

  /** A separator absent from both heads splits a joined string uniquely. */
  lemma ColonSplit(ta: string, tb: string, x: string, y: string)
    requires ':' !in ta && ':' !in tb
    ensures ta + ":" + x == tb + ":" + y <==> ta == tb && x == y
  {
    var ka, kb := ta + ":" + x, tb + ":" + y;
    if ka == kb {
      FirstColon(ta, x);
      FirstColon(tb, y);
      assert |ta| == |tb|;
      assert ta == ka[..|ta|] && tb == kb[..|tb|];
      PrefixCancel(ta + ":", x, y);
    }
  }

  /** Two blocks share a key exactly when they have the same type and the
      same first 100 characters. */
  lemma BlockKeyMeaning(a: Block, b: Block)
    ensures BlockKey(a) == BlockKey(b) <==> a.btype == b.btype && Prefix(a.content, 100) == Prefix(b.content, 100)
  {
    ColonSplit(TypeName(a.btype), TypeName(b.btype), Prefix(a.content, 100), Prefix(b.content, 100));
    TypeNameInjective(a.btype, b.btype);
  }

  /** The key of every block, in order. */
  function Keys(blocks: seq<Block>): (keys: seq<string>)
    ensures |keys| == |blocks|
    ensures forall i :: 0 <= i < |blocks| ==> keys[i] == BlockKey(blocks[i])
  {
    seq(|blocks|, i requires 0 <= i < |blocks| => BlockKey(blocks[i]))
  }

  // ---------------------------------------------------------------------
  // Candidates and the first-unused rule

  /** An entry of oldMap: a block and its index in the old list. */
  datatype Candidate = Candidate(block: Block, index: nat)

  /** oldMap.get(key) after indexing the first n old blocks, whose keys are
      `oldKeys`: the blocks with that key and their indices, in old order
      (empty when the key is absent). */
  function CandidatesUpTo(oldBlocks: seq<Block>, oldKeys: seq<string>, key: string, n: nat): seq<Candidate>
    requires n <= |oldBlocks| == |oldKeys|
  {
    if n == 0 then []
    else
      CandidatesUpTo(oldBlocks, oldKeys, key, n - 1)
      + (if oldKeys[n - 1] == key then [Candidate(oldBlocks[n - 1], n - 1)] else [])
  }

  /** Each candidate is an old block below n with the key, paired with its own index. */
  predicate CandidatesSound(oldBlocks: seq<Block>, oldKeys: seq<string>, key: string, n: nat, cs: seq<Candidate>) {
    forall p :: 0 <= p < |cs| ==>
      cs[p].index < n <= |oldBlocks| == |oldKeys| && cs[p].block == oldBlocks[cs[p].index] && oldKeys[cs[p].index] == key
  }

  /** Candidates come in increasing index order. */
  predicate CandidatesIncreasing(cs: seq<Candidate>) {
    forall p, q :: 0 <= p < q < |cs| ==> cs[p].index < cs[q].index
  }

  /** Every old block below n with the key is a candidate. */
  predicate CandidatesComplete(oldKeys: seq<string>, key: string, n: nat, cs: seq<Candidate>)
    requires n <= |oldKeys|
  {
    forall i :: 0 <= i < n && oldKeys[i] == key ==> exists p :: 0 <= p < |cs| && cs[p].index == i
  }

  lemma {:induction false} CandidatesAreSound(oldBlocks: seq<Block>, oldKeys: seq<string>, key: string, n: nat)
    requires n <= |oldBlocks| == |oldKeys|
    ensures CandidatesSound(oldBlocks, oldKeys, key, n, CandidatesUpTo(oldBlocks, oldKeys, key, n))
  {
    if n > 0 {
      CandidatesAreSound(oldBlocks, oldKeys, key, n - 1);
      var prev := CandidatesUpTo(oldBlocks, oldKeys, key, n - 1);
      var r := CandidatesUpTo(oldBlocks, oldKeys, key, n);
      assert forall p :: 0 <= p < |prev| ==> r[p] == prev[p];
    }
  }

  lemma {:induction false} CandidatesAreIncreasing(oldBlocks: seq<Block>, oldKeys: seq<string>, key: string, n: nat)
    requires n <= |oldBlocks| == |oldKeys|
    ensures CandidatesIncreasing(CandidatesUpTo(oldBlocks, oldKeys, key, n))
  {
    if n > 0 {
      CandidatesAreIncreasing(oldBlocks, oldKeys, key, n - 1);
      CandidatesAreSound(oldBlocks, oldKeys, key, n - 1);
      var prev := CandidatesUpTo(oldBlocks, oldKeys, key, n - 1);
      var r := CandidatesUpTo(oldBlocks, oldKeys, key, n);
      assert forall p :: 0 <= p < |prev| ==> r[p] == prev[p];
    }
  }

  lemma {:induction false} CandidatesAreComplete(oldBlocks: seq<Block>, oldKeys: seq<string>, key: string, n: nat)
    requires n <= |oldBlocks| == |oldKeys|
    ensures CandidatesComplete(oldKeys, key, n, CandidatesUpTo(oldBlocks, oldKeys, key, n))
  {
    if n > 0 {
      CandidatesAreComplete(oldBlocks, oldKeys, key, n - 1);
      var prev := CandidatesUpTo(oldBlocks, oldKeys, key, n - 1);
      var r := CandidatesUpTo(oldBlocks, oldKeys, key, n);
      forall i | 0 <= i < n && oldKeys[i] == key ensures exists p :: 0 <= p < |r| && r[p].index == i {
        if i < n - 1 {
          var p :| 0 <= p < |prev| && prev[p].index == i;
          assert r[p] == prev[p];
        } else {
          assert r[|prev|].index == n - 1;
        }
      }
    }
  }

  /** candidates.find(c => !usedOldIndices.has(c.index)), scanning from k. */
  function FirstUnusedFrom(cs: seq<Candidate>, used: set<nat>, k: nat): (r: Option<Candidate>)
    requires k <= |cs|
    ensures r.Some? ==> exists p :: k <= p < |cs| && cs[p] == r.value && r.value.index !in used
                                   && forall q :: k <= q < p ==> cs[q].index in used
    ensures r.None? ==> forall p :: k <= p < |cs| ==> cs[p].index in used
    decreases |cs| - k
  {
    if k == |cs| then None
    else if cs[k].index !in used then Some(cs[k])
    else FirstUnusedFrom(cs, used, k + 1)
  }

  function FirstUnused(cs: seq<Candidate>, used: set<nat>): Option<Candidate> {
    FirstUnusedFrom(cs, used, 0)
  }

  /** The old block a new block with this key is matched to. */
  function MatchOf(oldBlocks: seq<Block>, oldKeys: seq<string>, key: string, used: set<nat>): Option<Candidate>
    requires |oldBlocks| == |oldKeys|
  {
    FirstUnused(CandidatesUpTo(oldBlocks, oldKeys, key, |oldBlocks|), used)
  }

  /** Old index j is the first index, in old order, whose key is `key` and
      that is not in used. */
  predicate IsFirstUnused(oldKeys: seq<string>, key: string, used: set<nat>, j: nat) {
    j < |oldKeys| && oldKeys[j] == key && j !in used
    && forall i :: 0 <= i < j && oldKeys[i] == key ==> i in used
  }

  /** In a sound, increasing, complete candidate list, the first unused
      candidate is the first unused old index with the key. */
  lemma FirstUnusedIsFirst(oldBlocks: seq<Block>, oldKeys: seq<string>, key: string, used: set<nat>, cs: seq<Candidate>, c: Candidate)
    requires |oldBlocks| == |oldKeys|
    requires CandidatesSound(oldBlocks, oldKeys, key, |oldBlocks|, cs) && CandidatesIncreasing(cs)
    requires CandidatesComplete(oldKeys, key, |oldBlocks|, cs)
    requires FirstUnused(cs, used) == Some(c)
    ensures IsFirstUnused(oldKeys, key, used, c.index) && c.block == oldBlocks[c.index]
  {
    var p :| 0 <= p < |cs| && cs[p] == c && c.index !in used && forall q :: 0 <= q < p ==> cs[q].index in used;
    forall i | 0 <= i < c.index && oldKeys[i] == key ensures i in used {
      var p' :| 0 <= p' < |cs| && cs[p'].index == i;
      assert p' < p;
    }
  }

  /** A found match is the first unused old block with the key, and carries
      that block. */
  lemma MatchFound(oldBlocks: seq<Block>, oldKeys: seq<string>, key: string, used: set<nat>, c: Candidate)
    requires |oldBlocks| == |oldKeys|
    requires MatchOf(oldBlocks, oldKeys, key, used) == Some(c)
    ensures IsFirstUnused(oldKeys, key, used, c.index) && c.block == oldBlocks[c.index]
  {
    CandidatesAreSound(oldBlocks, oldKeys, key, |oldBlocks|);
    CandidatesAreIncreasing(oldBlocks, oldKeys, key, |oldBlocks|);
    CandidatesAreComplete(oldBlocks, oldKeys, key, |oldBlocks|);
    FirstUnusedIsFirst(oldBlocks, oldKeys, key, used, CandidatesUpTo(oldBlocks, oldKeys, key, |oldBlocks|), c);
  }

  /** No match is found only when every old block with the key is used. */
  lemma MatchNone(oldBlocks: seq<Block>, oldKeys: seq<string>, key: string, used: set<nat>)
    requires |oldBlocks| == |oldKeys|
    requires MatchOf(oldBlocks, oldKeys, key, used).None?
    ensures forall i :: 0 <= i < |oldBlocks| && oldKeys[i] == key ==> i in used
  {
    var cs := CandidatesUpTo(oldBlocks, oldKeys, key, |oldBlocks|);
    CandidatesAreComplete(oldBlocks, oldKeys, key, |oldBlocks|);
    forall i | 0 <= i < |oldBlocks| && oldKeys[i] == key ensures i in used {
      var p' :| 0 <= p' < |cs| && cs[p'].index == i;
    }
  }

  // ---------------------------------------------------------------------
  // The three passes

  /** The state of the first pass: usedOldIndices, matchedNewIndices and the
      move changes, plus the pairing new index -> old index it establishes
      (the two sets are its keys and its values). */
  datatype MatchState = MatchState(used: set<nat>, matched: set<nat>, changes: seq<BlockChange>, pairing: map<nat, nat>)

  /** One new block of the first pass. */
  function MatchStep(oldBlocks: seq<Block>, oldKeys: seq<string>, m: MatchState, newIndex: nat, newBlock: Block, newKey: string): MatchState
    requires |oldBlocks| == |oldKeys|
  {
    match MatchOf(oldBlocks, oldKeys, newKey, m.used)
    case None => m
    case Some(c) =>
      MatchState(m.used + {c.index}, m.matched + {newIndex},
                 m.changes + (if c.index != newIndex then [BlockChange(Move, newIndex, Some(newBlock), Some(c.block))] else []),
                 m.pairing[newIndex := c.index])
  }

  /** The first pass over the first n new blocks. */
  function MatchUpTo(oldBlocks: seq<Block>, oldKeys: seq<string>, newBlocks: seq<Block>, newKeys: seq<string>, n: nat): MatchState
    requires |oldBlocks| == |oldKeys| && n <= |newBlocks| == |newKeys|
  {
    if n == 0 then MatchState({}, {}, [], map[])
    else MatchStep(oldBlocks, oldKeys, MatchUpTo(oldBlocks, oldKeys, newBlocks, newKeys, n - 1), n - 1, newBlocks[n - 1], newKeys[n - 1])
  }

  /** After n new blocks the pairing's keys are the matched new indices and
      its values the used old indices; it is one-to-one and pairs equal keys. */
  predicate PairingOk(oldKeys: seq<string>, newKeys: seq<string>, n: nat, m: MatchState)
    requires n <= |newKeys|
  {
    m.matched == m.pairing.Keys && m.used == m.pairing.Values
    && (forall k :: k in m.pairing ==> k < n && m.pairing[k] < |oldKeys| && oldKeys[m.pairing[k]] == newKeys[k])
    && (forall k1, k2 :: k1 in m.pairing && k2 in m.pairing && k1 != k2 ==> m.pairing[k1] != m.pairing[k2])
  }

  /** Adding a fresh key to a map adds its value to the values. */
  lemma MapAddValues(m: map<nat, nat>, k: nat, v: nat)
    requires k !in m
    ensures m[k := v].Values == m.Values + {v}
    ensures m[k := v].Keys == m.Keys + {k}
  {
    var m' := m[k := v];
    forall x | x in m.Values ensures x in m'.Values {
      var j :| j in m && m[j] == x;
      assert m'[j] == x;
    }
    assert m'[k] == v;
  }

  lemma {:induction false} MatchPairing(oldBlocks: seq<Block>, oldKeys: seq<string>, newBlocks: seq<Block>, newKeys: seq<string>, n: nat)
    requires |oldBlocks| == |oldKeys| && n <= |newBlocks| == |newKeys|
    ensures PairingOk(oldKeys, newKeys, n, MatchUpTo(oldBlocks, oldKeys, newBlocks, newKeys, n))
  {
    if n > 0 {
      MatchPairing(oldBlocks, oldKeys, newBlocks, newKeys, n - 1);
      PairingStep(oldBlocks, oldKeys, newKeys, n, MatchUpTo(oldBlocks, oldKeys, newBlocks, newKeys, n - 1), newBlocks[n - 1]);
    }
  }

  /** One step of the first pass keeps the pairing well formed. */
  lemma PairingStep(oldBlocks: seq<Block>, oldKeys: seq<string>, newKeys: seq<string>, n: nat, m: MatchState, b: Block)
    requires |oldBlocks| == |oldKeys| && 0 < n <= |newKeys|
    requires PairingOk(oldKeys, newKeys, n - 1, m)
    ensures PairingOk(oldKeys, newKeys, n, MatchStep(oldBlocks, oldKeys, m, n - 1, b, newKeys[n - 1]))
  {
    var r := MatchOf(oldBlocks, oldKeys, newKeys[n - 1], m.used);
    if r.Some? {
      MatchFound(oldBlocks, oldKeys, newKeys[n - 1], m.used, r.value);
      PairingExtend(oldKeys, newKeys, n, m, r.value.index, MatchStep(oldBlocks, oldKeys, m, n - 1, b, newKeys[n - 1]));
    }
  }

  /** Pairing new index n - 1 with an unused old index of the same key
      keeps the pairing well formed. */
  lemma PairingExtend(oldKeys: seq<string>, newKeys: seq<string>, n: nat, m: MatchState, j: nat, m': MatchState)
    requires 0 < n <= |newKeys| && PairingOk(oldKeys, newKeys, n - 1, m)
    requires j < |oldKeys| && oldKeys[j] == newKeys[n - 1] && j !in m.used
    requires m'.pairing == m.pairing[n - 1 := j] && m'.used == m.used + {j} && m'.matched == m.matched + {n - 1}
    ensures PairingOk(oldKeys, newKeys, n, m')
  {
    assert n - 1 !in m.pairing;
    MapAddValues(m.pairing, n - 1, j);
    forall k | k in m'.pairing
      ensures k < n && m'.pairing[k] < |oldKeys| && oldKeys[m'.pairing[k]] == newKeys[k]
    {
      if k != n - 1 {
        assert m'.pairing[k] == m.pairing[k];
      }
    }
    forall k1, k2 | k1 in m'.pairing && k2 in m'.pairing && k1 != k2
      ensures m'.pairing[k1] != m'.pairing[k2]
    {
      if k1 != n - 1 && k2 != n - 1 {
        assert m'.pairing[k1] == m.pairing[k1] && m'.pairing[k2] == m.pairing[k2];
      } else if k1 == n - 1 {
        assert m.pairing[k2] in m.pairing.Values;
      } else {
        assert m.pairing[k1] in m.pairing.Values;
      }
    }
  }

  /** After n new blocks every move names a pair whose indices differ and
      carries both blocks, and the moves come in new-index order. */
  predicate MovesSound(oldBlocks: seq<Block>, newBlocks: seq<Block>, n: nat, m: MatchState)
    requires n <= |newBlocks|
  {
    (forall p :: 0 <= p < |m.changes| ==>
       m.changes[p].index in m.pairing && m.changes[p].index < n && m.pairing[m.changes[p].index] < |oldBlocks|
       && m.pairing[m.changes[p].index] != m.changes[p].index
       && m.changes[p] == BlockChange(Move, m.changes[p].index, Some(newBlocks[m.changes[p].index]),
                                      Some(oldBlocks[m.pairing[m.changes[p].index]])))
    && IndicesIncreasing(m.changes)
  }

  /** Every pair whose indices differ has a move. */
  predicate MovesComplete(m: MatchState) {
    forall k :: k in m.pairing && m.pairing[k] != k ==> exists p :: 0 <= p < |m.changes| && m.changes[p].index == k
  }

  /** Extending the pairing by a fresh new index n - 1, with a move exactly
      when its old index differs, keeps the moves sound. */
  lemma MovesSoundExtend(oldBlocks: seq<Block>, newBlocks: seq<Block>, n: nat, m: MatchState, j: nat, m': MatchState)
    requires 0 < n <= |newBlocks| && j < |oldBlocks|
    requires MovesSound(oldBlocks, newBlocks, n - 1, m) && n - 1 !in m.pairing
    requires m'.pairing == m.pairing[n - 1 := j]
    requires m'.changes == m.changes + (if j != n - 1 then [BlockChange(Move, n - 1, Some(newBlocks[n - 1]), Some(oldBlocks[j]))] else [])
    ensures MovesSound(oldBlocks, newBlocks, n, m')
  {
    assert forall p :: 0 <= p < |m.changes| ==> m'.changes[p] == m.changes[p];
  }

  lemma {:induction false} MatchMovesSound(oldBlocks: seq<Block>, oldKeys: seq<string>, newBlocks: seq<Block>, newKeys: seq<string>, n: nat)
    requires |oldBlocks| == |oldKeys| && n <= |newBlocks| == |newKeys|
    ensures MovesSound(oldBlocks, newBlocks, n, MatchUpTo(oldBlocks, oldKeys, newBlocks, newKeys, n))
  {
    if n > 0 {
      MatchMovesSound(oldBlocks, oldKeys, newBlocks, newKeys, n - 1);
      MatchPairing(oldBlocks, oldKeys, newBlocks, newKeys, n - 1);
      MovesStep(oldBlocks, oldKeys, newBlocks, newKeys, n, MatchUpTo(oldBlocks, oldKeys, newBlocks, newKeys, n - 1));
    }
  }

  /** One step of the first pass keeps the moves sound. */
  lemma MovesStep(oldBlocks: seq<Block>, oldKeys: seq<string>, newBlocks: seq<Block>, newKeys: seq<string>, n: nat, m: MatchState)
    requires |oldBlocks| == |oldKeys| && 0 < n <= |newBlocks| == |newKeys|
    requires MovesSound(oldBlocks, newBlocks, n - 1, m) && PairingOk(oldKeys, newKeys, n - 1, m)
    ensures MovesSound(oldBlocks, newBlocks, n, MatchStep(oldBlocks, oldKeys, m, n - 1, newBlocks[n - 1], newKeys[n - 1]))
  {
    var r := MatchOf(oldBlocks, oldKeys, newKeys[n - 1], m.used);
    if r.Some? {
      var c := r.value;
      MatchFound(oldBlocks, oldKeys, newKeys[n - 1], m.used, c);
      MovesSoundExtend(oldBlocks, newBlocks, n, m, c.index, MatchStep(oldBlocks, oldKeys, m, n - 1, newBlocks[n - 1], newKeys[n - 1]));
    }
  }

  lemma {:induction false} MatchMovesComplete(oldBlocks: seq<Block>, oldKeys: seq<string>, newBlocks: seq<Block>, newKeys: seq<string>, n: nat)
    requires |oldBlocks| == |oldKeys| && n <= |newBlocks| == |newKeys|
    ensures MovesComplete(MatchUpTo(oldBlocks, oldKeys, newBlocks, newKeys, n))
  {
    if n > 0 {
      MatchMovesComplete(oldBlocks, oldKeys, newBlocks, newKeys, n - 1);
      var m := MatchUpTo(oldBlocks, oldKeys, newBlocks, newKeys, n - 1);
      var r := MatchOf(oldBlocks, oldKeys, newKeys[n - 1], m.used);
      if r.Some? {
        var c := r.value;
        var m' := MatchUpTo(oldBlocks, oldKeys, newBlocks, newKeys, n);
        assert m'.pairing == m.pairing[n - 1 := c.index];
        forall k | k in m'.pairing && m'.pairing[k] != k
          ensures exists p :: 0 <= p < |m'.changes| && m'.changes[p].index == k
        {
          if k != n - 1 {
            var p :| 0 <= p < |m.changes| && m.changes[p].index == k;
            assert m'.changes[p] == m.changes[p];
          } else {
            assert m'.changes[|m.changes|].index == k;
          }
        }
      }
    }
  }

  /** The second pass over the first n old blocks: a remove for each unused one. */
  function RemovesUpTo(oldBlocks: seq<Block>, used: set<nat>, n: nat): seq<BlockChange>
    requires n <= |oldBlocks|
  {
    if n == 0 then []
    else
      RemovesUpTo(oldBlocks, used, n - 1)
      + (if n - 1 !in used then [BlockChange(Remove, n - 1, None, Some(oldBlocks[n - 1]))] else [])
  }

  /** Each remove names an unused old index below n and carries its old block. */
  predicate RemovesSound(oldBlocks: seq<Block>, used: set<nat>, n: nat, r: seq<BlockChange>) {
    forall p :: 0 <= p < |r| ==>
      r[p].index < n <= |oldBlocks| && r[p].index !in used
      && r[p] == BlockChange(Remove, r[p].index, None, Some(oldBlocks[r[p].index]))
  }

  /** The changes come in strictly increasing index order, so no index
      appears twice. */
  predicate IndicesIncreasing(r: seq<BlockChange>) {
    forall p, q :: 0 <= p < q < |r| ==> r[p].index < r[q].index
  }

  /** Every index below n that is not in skip is named by some change. */
  predicate Covers(r: seq<BlockChange>, n: nat, skip: set<nat>) {
    forall i :: 0 <= i < n && i !in skip ==> exists p :: 0 <= p < |r| && r[p].index == i
  }

  lemma {:induction false} RemovesAreSound(oldBlocks: seq<Block>, used: set<nat>, n: nat)
    requires n <= |oldBlocks|
    ensures RemovesSound(oldBlocks, used, n, RemovesUpTo(oldBlocks, used, n))
  {
    if n > 0 {
      RemovesAreSound(oldBlocks, used, n - 1);
      var prev := RemovesUpTo(oldBlocks, used, n - 1);
      var r := RemovesUpTo(oldBlocks, used, n);
      assert forall p :: 0 <= p < |prev| ==> r[p] == prev[p];
    }
  }

  lemma {:induction false} RemovesAreIncreasing(oldBlocks: seq<Block>, used: set<nat>, n: nat)
    requires n <= |oldBlocks|
    ensures IndicesIncreasing(RemovesUpTo(oldBlocks, used, n))
  {
    if n > 0 {
      RemovesAreIncreasing(oldBlocks, used, n - 1);
      RemovesAreSound(oldBlocks, used, n - 1);
      var prev := RemovesUpTo(oldBlocks, used, n - 1);
      var r := RemovesUpTo(oldBlocks, used, n);
      assert forall p :: 0 <= p < |prev| ==> r[p] == prev[p];
    }
  }

  lemma {:induction false} RemovesAreComplete(oldBlocks: seq<Block>, used: set<nat>, n: nat)
    requires n <= |oldBlocks|
    ensures Covers(RemovesUpTo(oldBlocks, used, n), n, used)
  {
    if n > 0 {
      RemovesAreComplete(oldBlocks, used, n - 1);
      var prev := RemovesUpTo(oldBlocks, used, n - 1);
      var r := RemovesUpTo(oldBlocks, used, n);
      forall i | 0 <= i < n && i !in used ensures exists p :: 0 <= p < |r| && r[p].index == i {
        if i < n - 1 {
          var p :| 0 <= p < |prev| && prev[p].index == i;
          assert r[p] == prev[p];
        } else {
          assert r[|prev|].index == n - 1;
        }
      }
    }
  }

  /** What the third pass emits for an unmatched new block: an update when
      an old block exists at the same index and is unused, an add otherwise. */
  function AddOrUpdate(oldBlocks: seq<Block>, used: set<nat>, i: nat, b: Block): BlockChange {
    if i < |oldBlocks| && i !in used then BlockChange(Update, i, Some(b), Some(oldBlocks[i]))
    else BlockChange(Add, i, Some(b), None)
  }

  /** The third pass over the first n new blocks. */
  function AddsUpTo(oldBlocks: seq<Block>, newBlocks: seq<Block>, used: set<nat>, matched: set<nat>, n: nat): seq<BlockChange>
    requires n <= |newBlocks|
  {
    if n == 0 then []
    else
      AddsUpTo(oldBlocks, newBlocks, used, matched, n - 1)
      + (if n - 1 !in matched then [AddOrUpdate(oldBlocks, used, n - 1, newBlocks[n - 1])] else [])
  }

  /** Each change of the third pass names an unmatched new index below n and
      is what AddOrUpdate makes of it. */
  predicate AddsSound(oldBlocks: seq<Block>, newBlocks: seq<Block>, used: set<nat>, matched: set<nat>, n: nat, r: seq<BlockChange>) {
    forall p :: 0 <= p < |r| ==>
      r[p].index < n <= |newBlocks| && r[p].index !in matched
      && r[p] == AddOrUpdate(oldBlocks, used, r[p].index, newBlocks[r[p].index])
  }

  lemma {:induction false} AddsAreSound(oldBlocks: seq<Block>, newBlocks: seq<Block>, used: set<nat>, matched: set<nat>, n: nat)
    requires n <= |newBlocks|
    ensures AddsSound(oldBlocks, newBlocks, used, matched, n, AddsUpTo(oldBlocks, newBlocks, used, matched, n))
  {
    if n > 0 {
      AddsAreSound(oldBlocks, newBlocks, used, matched, n - 1);
      var prev := AddsUpTo(oldBlocks, newBlocks, used, matched, n - 1);
      var r := AddsUpTo(oldBlocks, newBlocks, used, matched, n);
      assert forall p :: 0 <= p < |prev| ==> r[p] == prev[p];
    }
  }

  lemma {:induction false} AddsAreIncreasing(oldBlocks: seq<Block>, newBlocks: seq<Block>, used: set<nat>, matched: set<nat>, n: nat)
    requires n <= |newBlocks|
    ensures IndicesIncreasing(AddsUpTo(oldBlocks, newBlocks, used, matched, n))
  {
    if n > 0 {
      AddsAreIncreasing(oldBlocks, newBlocks, used, matched, n - 1);
      AddsAreSound(oldBlocks, newBlocks, used, matched, n - 1);
      var prev := AddsUpTo(oldBlocks, newBlocks, used, matched, n - 1);
      var r := AddsUpTo(oldBlocks, newBlocks, used, matched, n);
      assert forall p :: 0 <= p < |prev| ==> r[p] == prev[p];
    }
  }

  lemma {:induction false} AddsAreComplete(oldBlocks: seq<Block>, newBlocks: seq<Block>, used: set<nat>, matched: set<nat>, n: nat)
    requires n <= |newBlocks|
    ensures Covers(AddsUpTo(oldBlocks, newBlocks, used, matched, n), n, matched)
  {
    if n > 0 {
      AddsAreComplete(oldBlocks, newBlocks, used, matched, n - 1);
      var prev := AddsUpTo(oldBlocks, newBlocks, used, matched, n - 1);
      var r := AddsUpTo(oldBlocks, newBlocks, used, matched, n);
      forall i | 0 <= i < n && i !in matched ensures exists p :: 0 <= p < |r| && r[p].index == i {
        if i < n - 1 {
          var p :| 0 <= p < |prev| && prev[p].index == i;
          assert r[p] == prev[p];
        } else {
          assert r[|prev|].index == n - 1;
        }
      }
    }
  }

  /** The three passes over blocks whose keys are given. */
  function DiffKeyed(oldBlocks: seq<Block>, oldKeys: seq<string>, newBlocks: seq<Block>, newKeys: seq<string>): seq<BlockChange>
    requires |oldBlocks| == |oldKeys| && |newBlocks| == |newKeys|
  {
    var m := MatchUpTo(oldBlocks, oldKeys, newBlocks, newKeys, |newBlocks|);
    m.changes + RemovesUpTo(oldBlocks, m.used, |oldBlocks|) + AddsUpTo(oldBlocks, newBlocks, m.used, m.matched, |newBlocks|)
  }

  /** diffBlocks(oldBlocks, newBlocks) */
  function Diff(oldBlocks: seq<Block>, newBlocks: seq<Block>): seq<BlockChange> {
    DiffKeyed(oldBlocks, Keys(oldBlocks), newBlocks, Keys(newBlocks))
  }

  /** The matching diffBlocks computes: new index -> old index. */
  function Pairing(oldBlocks: seq<Block>, newBlocks: seq<Block>): map<nat, nat> {
    MatchUpTo(oldBlocks, Keys(oldBlocks), newBlocks, Keys(newBlocks), |newBlocks|).pairing
  }

  // ---------------------------------------------------------------------
  // Properties of diffBlocks

  /** usedOldIndices when new block k is considered. */
  function UsedBefore(oldBlocks: seq<Block>, newBlocks: seq<Block>, k: nat): set<nat>
    requires k <= |newBlocks|
  {
    MatchUpTo(oldBlocks, Keys(oldBlocks), newBlocks, Keys(newBlocks), k).used
  }

  /** Later new blocks never change the pairing of an earlier one. */
  lemma {:induction false} PairingPersists(oldBlocks: seq<Block>, oldKeys: seq<string>, newBlocks: seq<Block>, newKeys: seq<string>, k: nat, n: nat)
    requires |oldBlocks| == |oldKeys| && k < n <= |newBlocks| == |newKeys|
    ensures k in MatchUpTo(oldBlocks, oldKeys, newBlocks, newKeys, n).pairing
        <==> k in MatchUpTo(oldBlocks, oldKeys, newBlocks, newKeys, k + 1).pairing
    ensures k in MatchUpTo(oldBlocks, oldKeys, newBlocks, newKeys, k + 1).pairing ==>
      MatchUpTo(oldBlocks, oldKeys, newBlocks, newKeys, n).pairing[k]
      == MatchUpTo(oldBlocks, oldKeys, newBlocks, newKeys, k + 1).pairing[k]
  {
    if n > k + 1 {
      PairingPersists(oldBlocks, oldKeys, newBlocks, newKeys, k, n - 1);
    }
  }

  /** The tie-break over given keys. */
  lemma TieBreakKeyed(oldBlocks: seq<Block>, oldKeys: seq<string>, newBlocks: seq<Block>, newKeys: seq<string>, k: nat)
    requires |oldBlocks| == |oldKeys| && k < |newBlocks| == |newKeys|
    ensures k in MatchUpTo(oldBlocks, oldKeys, newBlocks, newKeys, |newBlocks|).pairing ==>
      IsFirstUnused(oldKeys, newKeys[k], MatchUpTo(oldBlocks, oldKeys, newBlocks, newKeys, k).used,
                    MatchUpTo(oldBlocks, oldKeys, newBlocks, newKeys, |newBlocks|).pairing[k])
    ensures k !in MatchUpTo(oldBlocks, oldKeys, newBlocks, newKeys, |newBlocks|).pairing ==>
      forall i :: 0 <= i < |oldBlocks| && oldKeys[i] == newKeys[k] ==> i in MatchUpTo(oldBlocks, oldKeys, newBlocks, newKeys, k).used
  {
    PairingPersists(oldBlocks, oldKeys, newBlocks, newKeys, k, |newBlocks|);
    MatchPairing(oldBlocks, oldKeys, newBlocks, newKeys, k);
    var m := MatchUpTo(oldBlocks, oldKeys, newBlocks, newKeys, k);
    assert k !in m.pairing;
    var r := MatchOf(oldBlocks, oldKeys, newKeys[k], m.used);
    if r.Some? {
      MatchFound(oldBlocks, oldKeys, newKeys[k], m.used, r.value);
      assert MatchUpTo(oldBlocks, oldKeys, newBlocks, newKeys, k + 1).pairing == m.pairing[k := r.value.index];
    } else {
      MatchNone(oldBlocks, oldKeys, newKeys[k], m.used);
      assert MatchUpTo(oldBlocks, oldKeys, newBlocks, newKeys, k + 1) == m;
    }
  }

  /** Tie-break: new block k is paired with the first old block, in old
      order, that has its key and was not taken by an earlier new block; it
      stays unpaired only when every old block with its key was taken. */
  lemma TieBreak(oldBlocks: seq<Block>, newBlocks: seq<Block>, k: nat)
    requires k < |newBlocks|
    ensures var pairing := Pairing(oldBlocks, newBlocks);
            var before := UsedBefore(oldBlocks, newBlocks, k);
            var key := BlockKey(newBlocks[k]);
      (k in pairing ==>
         pairing[k] < |oldBlocks| && BlockKey(oldBlocks[pairing[k]]) == key && pairing[k] !in before
         && forall i :: 0 <= i < pairing[k] && BlockKey(oldBlocks[i]) == key ==> i in before)
      && (k !in pairing ==>
         forall i :: 0 <= i < |oldBlocks| && BlockKey(oldBlocks[i]) == key ==> i in before)
  {
    TieBreakKeyed(oldBlocks, Keys(oldBlocks), newBlocks, Keys(newBlocks), k);
  }

  /** The indices 0 .. n-1. */
  function IndicesBelow(n: nat): (r: set<nat>)
    ensures forall i :: i in r <==> 0 <= i < n
  {
    if n == 0 then {} else IndicesBelow(n - 1) + {n - 1}
  }

  /** Matching a list against itself pairs every block with its own index and
      moves nothing. */
  lemma {:induction false} MatchSelf(blocks: seq<Block>, keys: seq<string>, n: nat)
    requires n <= |blocks| == |keys|
    ensures MatchUpTo(blocks, keys, blocks, keys, n).used == IndicesBelow(n)
    ensures MatchUpTo(blocks, keys, blocks, keys, n).matched == IndicesBelow(n)
    ensures MatchUpTo(blocks, keys, blocks, keys, n).changes == []
  {
    if n > 0 {
      MatchSelf(blocks, keys, n - 1);
      var m := MatchUpTo(blocks, keys, blocks, keys, n - 1);
      var r := MatchOf(blocks, keys, keys[n - 1], m.used);
      if r.None? {
        MatchNone(blocks, keys, keys[n - 1], m.used);
        assert false;
      }
      MatchFound(blocks, keys, keys[n - 1], m.used, r.value);
      assert r.value.index == n - 1;
    }
  }

  /** When every old index below n is used, nothing is removed. */
  lemma {:induction false} NothingRemoved(oldBlocks: seq<Block>, used: set<nat>, n: nat)
    requires n <= |oldBlocks|
    requires forall i :: 0 <= i < n ==> i in used
    ensures RemovesUpTo(oldBlocks, used, n) == []
  {
    if n > 0 {
      NothingRemoved(oldBlocks, used, n - 1);
    }
  }

  /** When every new index below n is matched, nothing is added or updated. */
  lemma {:induction false} NothingAdded(oldBlocks: seq<Block>, newBlocks: seq<Block>, used: set<nat>, matched: set<nat>, n: nat)
    requires n <= |newBlocks|
    requires forall i :: 0 <= i < n ==> i in matched
    ensures AddsUpTo(oldBlocks, newBlocks, used, matched, n) == []
  {
    if n > 0 {
      NothingAdded(oldBlocks, newBlocks, used, matched, n - 1);
    }
  }

  /** diffBlocks(b, b) reports no change. */
  lemma DiffIdentical(blocks: seq<Block>)
    ensures Diff(blocks, blocks) == []
  {
    var n, keys := |blocks|, Keys(blocks);
    MatchSelf(blocks, keys, n);
    var m := MatchUpTo(blocks, keys, blocks, keys, n);
    NothingRemoved(blocks, m.used, n);
    NothingAdded(blocks, blocks, m.used, m.matched, n);
  }

  /** How many changes of a type in ts name index i. */
  function CountAt(cs: seq<BlockChange>, ts: set<ChangeType>, i: nat): nat {
    if |cs| == 0 then 0
    else (if cs[0].ctype in ts && cs[0].index == i then 1 else 0) + CountAt(cs[1..], ts, i)
  }

  lemma {:induction false} CountAppend(a: seq<BlockChange>, b: seq<BlockChange>, ts: set<ChangeType>, i: nat)
    ensures CountAt(a + b, ts, i) == CountAt(a, ts, i) + CountAt(b, ts, i)
  {
    if |a| > 0 {
      assert (a + b)[1..] == a[1..] + b;
      CountAppend(a[1..], b, ts, i);
    } else {
      assert a + b == b;
    }
  }

  /** Changes none of which names i with a type in ts count zero. */
  lemma {:induction false} CountAbsent(cs: seq<BlockChange>, ts: set<ChangeType>, i: nat)
    requires forall p :: 0 <= p < |cs| ==> cs[p].ctype !in ts || cs[p].index != i
    ensures CountAt(cs, ts, i) == 0
  {
    if |cs| > 0 {
      assert forall p :: 0 <= p < |cs| - 1 ==> cs[1..][p] == cs[p + 1];
      CountAbsent(cs[1..], ts, i);
    }
  }

  /** In changes of types in ts with increasing indices, an index that occurs
      counts once. */
  lemma {:induction false} CountIncreasing(cs: seq<BlockChange>, ts: set<ChangeType>, i: nat, p: nat)
    requires IndicesIncreasing(cs) && forall q :: 0 <= q < |cs| ==> cs[q].ctype in ts
    requires p < |cs| && cs[p].index == i
    ensures CountAt(cs, ts, i) == 1
  {
    var tail := cs[1..];
    assert forall q :: 0 <= q < |tail| ==> tail[q] == cs[q + 1];
    if p == 0 {
      CountAbsent(tail, ts, i);
    } else {
      CountIncreasing(tail, ts, i, p - 1);
    }
  }

  /** Moves, then removes, then adds and updates, each part in increasing
      index order: the order in which diffBlocks emits them. */
  lemma DiffLayout(oldBlocks: seq<Block>, newBlocks: seq<Block>)
    ensures exists moves: seq<BlockChange>, removes: seq<BlockChange>, adds: seq<BlockChange> ::
      Diff(oldBlocks, newBlocks) == moves + removes + adds
      && (forall p :: 0 <= p < |moves| ==> moves[p].ctype == Move)
      && (forall p :: 0 <= p < |removes| ==> removes[p].ctype == Remove)
      && (forall p :: 0 <= p < |adds| ==> adds[p].ctype in {Add, Update})
      && IndicesIncreasing(moves) && IndicesIncreasing(removes) && IndicesIncreasing(adds)
  {
    var ok, nk := Keys(oldBlocks), Keys(newBlocks);
    var m := MatchUpTo(oldBlocks, ok, newBlocks, nk, |newBlocks|);
    MatchMovesSound(oldBlocks, ok, newBlocks, nk, |newBlocks|);
    RemovesAreSound(oldBlocks, m.used, |oldBlocks|);
    RemovesAreIncreasing(oldBlocks, m.used, |oldBlocks|);
    AddsAreSound(oldBlocks, newBlocks, m.used, m.matched, |newBlocks|);
    AddsAreIncreasing(oldBlocks, newBlocks, m.used, m.matched, |newBlocks|);
    var removes := RemovesUpTo(oldBlocks, m.used, |oldBlocks|);
    var adds := AddsUpTo(oldBlocks, newBlocks, m.used, m.matched, |newBlocks|);
    assert Diff(oldBlocks, newBlocks) == m.changes + removes + adds;
  }

  lemma CountAtThree(a: seq<BlockChange>, b: seq<BlockChange>, c: seq<BlockChange>, ts: set<ChangeType>, i: nat)
    ensures CountAt(a + b + c, ts, i) == CountAt(a, ts, i) + CountAt(b, ts, i) + CountAt(c, ts, i)
  {
    CountAppend(a + b, c, ts, i);
    CountAppend(a, b, ts, i);
  }

  /** The first pass emits moves only. */
  lemma MovesCountOther(oldBlocks: seq<Block>, oldKeys: seq<string>, newBlocks: seq<Block>, newKeys: seq<string>, ts: set<ChangeType>, i: nat)
    requires |oldBlocks| == |oldKeys| && |newBlocks| == |newKeys| && Move !in ts
    ensures CountAt(MatchUpTo(oldBlocks, oldKeys, newBlocks, newKeys, |newBlocks|).changes, ts, i) == 0
  {
    MatchMovesSound(oldBlocks, oldKeys, newBlocks, newKeys, |newBlocks|);
    CountAbsent(MatchUpTo(oldBlocks, oldKeys, newBlocks, newKeys, |newBlocks|).changes, ts, i);
  }

  /** The second pass emits removes only. */
  lemma RemovesCountOther(oldBlocks: seq<Block>, used: set<nat>, ts: set<ChangeType>, i: nat)
    requires Remove !in ts
    ensures CountAt(RemovesUpTo(oldBlocks, used, |oldBlocks|), ts, i) == 0
  {
    RemovesAreSound(oldBlocks, used, |oldBlocks|);
    CountAbsent(RemovesUpTo(oldBlocks, used, |oldBlocks|), ts, i);
  }

  /** The third pass emits adds and updates only. */
  lemma AddsCountOther(oldBlocks: seq<Block>, newBlocks: seq<Block>, used: set<nat>, matched: set<nat>, ts: set<ChangeType>, i: nat)
    requires Add !in ts && Update !in ts
    ensures CountAt(AddsUpTo(oldBlocks, newBlocks, used, matched, |newBlocks|), ts, i) == 0
  {
    AddsAreSound(oldBlocks, newBlocks, used, matched, |newBlocks|);
    CountAbsent(AddsUpTo(oldBlocks, newBlocks, used, matched, |newBlocks|), ts, i);
  }

  /** The second pass removes each unused old index once and no other. */
  lemma RemovesCountAt(oldBlocks: seq<Block>, used: set<nat>, i: nat)
    requires i < |oldBlocks|
    ensures CountAt(RemovesUpTo(oldBlocks, used, |oldBlocks|), {Remove}, i) == if i in used then 0 else 1
  {
    var removes := RemovesUpTo(oldBlocks, used, |oldBlocks|);
    RemovesAreSound(oldBlocks, used, |oldBlocks|);
    if i in used {
      CountAbsent(removes, {Remove}, i);
    } else {
      RemovesAreIncreasing(oldBlocks, used, |oldBlocks|);
      RemovesAreComplete(oldBlocks, used, |oldBlocks|);
      var p :| 0 <= p < |removes| && removes[p].index == i;
      CountIncreasing(removes, {Remove}, i, p);
    }
  }

  /** The third pass adds or updates each unmatched new index once and no other. */
  lemma AddsCountAt(oldBlocks: seq<Block>, newBlocks: seq<Block>, used: set<nat>, matched: set<nat>, k: nat)
    requires k < |newBlocks|
    ensures CountAt(AddsUpTo(oldBlocks, newBlocks, used, matched, |newBlocks|), {Add, Update}, k)
            == if k in matched then 0 else 1
  {
    var adds := AddsUpTo(oldBlocks, newBlocks, used, matched, |newBlocks|);
    AddsAreSound(oldBlocks, newBlocks, used, matched, |newBlocks|);
    if k in matched {
      CountAbsent(adds, {Add, Update}, k);
    } else {
      AddsAreIncreasing(oldBlocks, newBlocks, used, matched, |newBlocks|);
      AddsAreComplete(oldBlocks, newBlocks, used, matched, |newBlocks|);
      var p :| 0 <= p < |adds| && adds[p].index == k;
      CountIncreasing(adds, {Add, Update}, k, p);
    }
  }

  /** The first pass moves each displaced pair once and nothing else. */
  lemma MovesCountAt(oldBlocks: seq<Block>, oldKeys: seq<string>, newBlocks: seq<Block>, newKeys: seq<string>, k: nat)
    requires |oldBlocks| == |oldKeys| && |newBlocks| == |newKeys|
    ensures var m := MatchUpTo(oldBlocks, oldKeys, newBlocks, newKeys, |newBlocks|);
      CountAt(m.changes, {Move}, k) == if k in m.pairing && m.pairing[k] != k then 1 else 0
  {
    var m := MatchUpTo(oldBlocks, oldKeys, newBlocks, newKeys, |newBlocks|);
    MatchMovesSound(oldBlocks, oldKeys, newBlocks, newKeys, |newBlocks|);
    if k in m.pairing && m.pairing[k] != k {
      MatchMovesComplete(oldBlocks, oldKeys, newBlocks, newKeys, |newBlocks|);
      var p :| 0 <= p < |m.changes| && m.changes[p].index == k;
      CountIncreasing(m.changes, {Move}, k, p);
    } else {
      CountAbsent(m.changes, {Move}, k);
    }
  }

  /** The number of removes at each old index: none when it is used, one
      otherwise. */
  lemma RemoveCount(oldBlocks: seq<Block>, oldKeys: seq<string>, newBlocks: seq<Block>, newKeys: seq<string>, i: nat)
    requires |oldBlocks| == |oldKeys| && |newBlocks| == |newKeys| && i < |oldBlocks|
    ensures CountAt(DiffKeyed(oldBlocks, oldKeys, newBlocks, newKeys), {Remove}, i)
            == if i in MatchUpTo(oldBlocks, oldKeys, newBlocks, newKeys, |newBlocks|).used then 0 else 1
  {
    var m := MatchUpTo(oldBlocks, oldKeys, newBlocks, newKeys, |newBlocks|);
    var removes := RemovesUpTo(oldBlocks, m.used, |oldBlocks|);
    var adds := AddsUpTo(oldBlocks, newBlocks, m.used, m.matched, |newBlocks|);
    CountAtThree(m.changes, removes, adds, {Remove}, i);
    MovesCountOther(oldBlocks, oldKeys, newBlocks, newKeys, {Remove}, i);
    RemovesCountAt(oldBlocks, m.used, i);
    AddsCountOther(oldBlocks, newBlocks, m.used, m.matched, {Remove}, i);
  }

  /** The number of adds and updates at each new index: none when it is
      matched, one otherwise. */
  lemma AddCount(oldBlocks: seq<Block>, oldKeys: seq<string>, newBlocks: seq<Block>, newKeys: seq<string>, k: nat)
    requires |oldBlocks| == |oldKeys| && |newBlocks| == |newKeys| && k < |newBlocks|
    ensures CountAt(DiffKeyed(oldBlocks, oldKeys, newBlocks, newKeys), {Add, Update}, k)
            == if k in MatchUpTo(oldBlocks, oldKeys, newBlocks, newKeys, |newBlocks|).matched then 0 else 1
  {
    var m := MatchUpTo(oldBlocks, oldKeys, newBlocks, newKeys, |newBlocks|);
    var removes := RemovesUpTo(oldBlocks, m.used, |oldBlocks|);
    var adds := AddsUpTo(oldBlocks, newBlocks, m.used, m.matched, |newBlocks|);
    CountAtThree(m.changes, removes, adds, {Add, Update}, k);
    MovesCountOther(oldBlocks, oldKeys, newBlocks, newKeys, {Add, Update}, k);
    RemovesCountOther(oldBlocks, m.used, {Add, Update}, k);
    AddsCountAt(oldBlocks, newBlocks, m.used, m.matched, k);
  }

  /** The number of moves at each new index: one when it is paired with a
      different old index, none otherwise. */
  lemma MoveCount(oldBlocks: seq<Block>, oldKeys: seq<string>, newBlocks: seq<Block>, newKeys: seq<string>, k: nat)
    requires |oldBlocks| == |oldKeys| && |newBlocks| == |newKeys|
    ensures var m := MatchUpTo(oldBlocks, oldKeys, newBlocks, newKeys, |newBlocks|);
      CountAt(DiffKeyed(oldBlocks, oldKeys, newBlocks, newKeys), {Move}, k)
      == if k in m.pairing && m.pairing[k] != k then 1 else 0
  {
    var m := MatchUpTo(oldBlocks, oldKeys, newBlocks, newKeys, |newBlocks|);
    var removes := RemovesUpTo(oldBlocks, m.used, |oldBlocks|);
    var adds := AddsUpTo(oldBlocks, newBlocks, m.used, m.matched, |newBlocks|);
    CountAtThree(m.changes, removes, adds, {Move}, k);
    MovesCountAt(oldBlocks, oldKeys, newBlocks, newKeys, k);
    RemovesCountOther(oldBlocks, m.used, {Move}, k);
    AddsCountOther(oldBlocks, newBlocks, m.used, m.matched, {Move}, k);
  }

  /** The pairing of new to old indices joins blocks with equal keys and
      uses every old index at most once. */
  lemma PairingMeaning(oldBlocks: seq<Block>, newBlocks: seq<Block>)
    ensures forall k :: k in Pairing(oldBlocks, newBlocks) ==>
      k < |newBlocks| && Pairing(oldBlocks, newBlocks)[k] < |oldBlocks|
      && BlockKey(oldBlocks[Pairing(oldBlocks, newBlocks)[k]]) == BlockKey(newBlocks[k])
    ensures forall k1, k2 :: k1 in Pairing(oldBlocks, newBlocks) && k2 in Pairing(oldBlocks, newBlocks) && k1 != k2 ==>
      Pairing(oldBlocks, newBlocks)[k1] != Pairing(oldBlocks, newBlocks)[k2]
  {
    var ok, nk := Keys(oldBlocks), Keys(newBlocks);
    MatchPairing(oldBlocks, ok, newBlocks, nk, |newBlocks|);
  }

  /** Every old index is either paired with a new block and never removed,
      or removed exactly once. */
  lemma OldIndexAccounted(oldBlocks: seq<Block>, newBlocks: seq<Block>, i: nat)
    requires i < |oldBlocks|
    ensures CountAt(Diff(oldBlocks, newBlocks), {Remove}, i)
            == if i in Pairing(oldBlocks, newBlocks).Values then 0 else 1
  {
    var ok, nk := Keys(oldBlocks), Keys(newBlocks);
    MatchPairing(oldBlocks, ok, newBlocks, nk, |newBlocks|);
    RemoveCount(oldBlocks, ok, newBlocks, nk, i);
  }

  /** Every new index is either paired with an old block, with no add or
      update, or gets exactly one add or update. */
  lemma NewIndexAccounted(oldBlocks: seq<Block>, newBlocks: seq<Block>, k: nat)
    requires k < |newBlocks|
    ensures k in Pairing(oldBlocks, newBlocks) ==> CountAt(Diff(oldBlocks, newBlocks), {Add, Update}, k) == 0
    ensures k !in Pairing(oldBlocks, newBlocks) ==> CountAt(Diff(oldBlocks, newBlocks), {Add, Update}, k) == 1
  {
    var ok, nk := Keys(oldBlocks), Keys(newBlocks);
    MatchPairing(oldBlocks, ok, newBlocks, nk, |newBlocks|);
    AddCount(oldBlocks, ok, newBlocks, nk, k);
  }

  /** A pair of blocks gets exactly one move when their indices differ and
      none when they agree; an unpaired new index gets no move. */
  lemma MovesExactlyForDisplacedPairs(oldBlocks: seq<Block>, newBlocks: seq<Block>, k: nat)
    ensures k in Pairing(oldBlocks, newBlocks) && Pairing(oldBlocks, newBlocks)[k] != k ==>
      CountAt(Diff(oldBlocks, newBlocks), {Move}, k) == 1
    ensures !(k in Pairing(oldBlocks, newBlocks) && Pairing(oldBlocks, newBlocks)[k] != k) ==>
      CountAt(Diff(oldBlocks, newBlocks), {Move}, k) == 0
  {
    MoveCount(oldBlocks, Keys(oldBlocks), newBlocks, Keys(newBlocks), k);
  }

  /** Each change of the diff comes from one of the three passes. */
  lemma DiffSegments(oldBlocks: seq<Block>, newBlocks: seq<Block>, p: nat)
    requires p < |Diff(oldBlocks, newBlocks)|
    ensures var m := MatchUpTo(oldBlocks, Keys(oldBlocks), newBlocks, Keys(newBlocks), |newBlocks|);
            var removes := RemovesUpTo(oldBlocks, m.used, |oldBlocks|);
            var adds := AddsUpTo(oldBlocks, newBlocks, m.used, m.matched, |newBlocks|);
      Diff(oldBlocks, newBlocks)[p]
      == if p < |m.changes| then m.changes[p]
         else if p < |m.changes| + |removes| then removes[p - |m.changes|]
         else adds[p - |m.changes| - |removes|]
  {
    DiffKeyedSegments(oldBlocks, Keys(oldBlocks), newBlocks, Keys(newBlocks), p);
  }

  lemma DiffKeyedSegments(oldBlocks: seq<Block>, oldKeys: seq<string>, newBlocks: seq<Block>, newKeys: seq<string>, p: nat)
    requires |oldBlocks| == |oldKeys| && |newBlocks| == |newKeys|
    requires p < |DiffKeyed(oldBlocks, oldKeys, newBlocks, newKeys)|
    ensures var m := MatchUpTo(oldBlocks, oldKeys, newBlocks, newKeys, |newBlocks|);
            var removes := RemovesUpTo(oldBlocks, m.used, |oldBlocks|);
            var adds := AddsUpTo(oldBlocks, newBlocks, m.used, m.matched, |newBlocks|);
      DiffKeyed(oldBlocks, oldKeys, newBlocks, newKeys)[p]
      == if p < |m.changes| then m.changes[p]
         else if p < |m.changes| + |removes| then removes[p - |m.changes|]
         else adds[p - |m.changes| - |removes|]
  {
    var m := MatchUpTo(oldBlocks, oldKeys, newBlocks, newKeys, |newBlocks|);
    var removes := RemovesUpTo(oldBlocks, m.used, |oldBlocks|);
    var adds := AddsUpTo(oldBlocks, newBlocks, m.used, m.matched, |newBlocks|);
    var d := DiffKeyed(oldBlocks, oldKeys, newBlocks, newKeys);
    assert d == (m.changes + removes) + adds;
    if p < |m.changes| + |removes| {
      assert d[p] == (m.changes + removes)[p];
    }
  }

  /** A move joins a pair with equal keys at different indices and carries
      both blocks. */
  lemma MoveChange(oldBlocks: seq<Block>, newBlocks: seq<Block>, p: nat)
    requires p < |Diff(oldBlocks, newBlocks)| && Diff(oldBlocks, newBlocks)[p].ctype == Move
    ensures var c := Diff(oldBlocks, newBlocks)[p];
            var pairing := Pairing(oldBlocks, newBlocks);
      c.index in pairing && pairing[c.index] != c.index && c.index < |newBlocks| && pairing[c.index] < |oldBlocks|
      && BlockKey(oldBlocks[pairing[c.index]]) == BlockKey(newBlocks[c.index])
      && c == BlockChange(Move, c.index, Some(newBlocks[c.index]), Some(oldBlocks[pairing[c.index]]))
  {
    var ok, nk := Keys(oldBlocks), Keys(newBlocks);
    var m := MatchUpTo(oldBlocks, ok, newBlocks, nk, |newBlocks|);
    DiffSegments(oldBlocks, newBlocks, p);
    MatchPairing(oldBlocks, ok, newBlocks, nk, |newBlocks|);
    MatchMovesSound(oldBlocks, ok, newBlocks, nk, |newBlocks|);
    RemovesAreSound(oldBlocks, m.used, |oldBlocks|);
    AddsAreSound(oldBlocks, newBlocks, m.used, m.matched, |newBlocks|);
  }

  /** A remove carries an old block that is paired with no new block. */
  lemma RemoveChange(oldBlocks: seq<Block>, newBlocks: seq<Block>, p: nat)
    requires p < |Diff(oldBlocks, newBlocks)| && Diff(oldBlocks, newBlocks)[p].ctype == Remove
    ensures var c := Diff(oldBlocks, newBlocks)[p];
      c.index < |oldBlocks| && c == BlockChange(Remove, c.index, None, Some(oldBlocks[c.index]))
      && c.index !in Pairing(oldBlocks, newBlocks).Values
  {
    var ok, nk := Keys(oldBlocks), Keys(newBlocks);
    var m := MatchUpTo(oldBlocks, ok, newBlocks, nk, |newBlocks|);
    DiffSegments(oldBlocks, newBlocks, p);
    MatchPairing(oldBlocks, ok, newBlocks, nk, |newBlocks|);
    MatchMovesSound(oldBlocks, ok, newBlocks, nk, |newBlocks|);
    RemovesAreSound(oldBlocks, m.used, |oldBlocks|);
    AddsAreSound(oldBlocks, newBlocks, m.used, m.matched, |newBlocks|);
  }

  /** An update carries an unpaired new block and the unpaired old block at
      the same index; that old block is also removed, exactly once. */
  lemma UpdateChange(oldBlocks: seq<Block>, newBlocks: seq<Block>, p: nat)
    requires p < |Diff(oldBlocks, newBlocks)| && Diff(oldBlocks, newBlocks)[p].ctype == Update
    ensures var c := Diff(oldBlocks, newBlocks)[p];
      c.index < |newBlocks| && c.index < |oldBlocks| && c.index !in Pairing(oldBlocks, newBlocks)
      && c.index !in Pairing(oldBlocks, newBlocks).Values
      && c == BlockChange(Update, c.index, Some(newBlocks[c.index]), Some(oldBlocks[c.index]))
      && CountAt(Diff(oldBlocks, newBlocks), {Remove}, c.index) == 1
  {
    var ok, nk := Keys(oldBlocks), Keys(newBlocks);
    var m := MatchUpTo(oldBlocks, ok, newBlocks, nk, |newBlocks|);
    DiffSegments(oldBlocks, newBlocks, p);
    MatchPairing(oldBlocks, ok, newBlocks, nk, |newBlocks|);
    MatchMovesSound(oldBlocks, ok, newBlocks, nk, |newBlocks|);
    RemovesAreSound(oldBlocks, m.used, |oldBlocks|);
    AddsAreSound(oldBlocks, newBlocks, m.used, m.matched, |newBlocks|);
    OldIndexAccounted(oldBlocks, newBlocks, Diff(oldBlocks, newBlocks)[p].index);
  }

  /** An add carries an unpaired new block whose index holds no unpaired
      old block. */
  lemma AddChange(oldBlocks: seq<Block>, newBlocks: seq<Block>, p: nat)
    requires p < |Diff(oldBlocks, newBlocks)| && Diff(oldBlocks, newBlocks)[p].ctype == Add
    ensures var c := Diff(oldBlocks, newBlocks)[p];
      c.index < |newBlocks| && c.index !in Pairing(oldBlocks, newBlocks)
      && c == BlockChange(Add, c.index, Some(newBlocks[c.index]), None)
      && (c.index < |oldBlocks| ==> c.index in Pairing(oldBlocks, newBlocks).Values)
  {
    var ok, nk := Keys(oldBlocks), Keys(newBlocks);
    var m := MatchUpTo(oldBlocks, ok, newBlocks, nk, |newBlocks|);
    DiffSegments(oldBlocks, newBlocks, p);
    MatchPairing(oldBlocks, ok, newBlocks, nk, |newBlocks|);
    MatchMovesSound(oldBlocks, ok, newBlocks, nk, |newBlocks|);
    RemovesAreSound(oldBlocks, m.used, |oldBlocks|);
    AddsAreSound(oldBlocks, newBlocks, m.used, m.matched, |newBlocks|);
  }

  // ---------------------------------------------------------------------
  // diffBlocks as the program runs it
  // ---------------------------------------------------------------------

  /** candidates.find(c => !usedOldIndices.has(c.index)) */
  method FindUnused(cs: seq<Candidate>, used: set<nat>) returns (r: Option<Candidate>)
    ensures r == FirstUnused(cs, used)
  {
    var k := 0;
    while k < |cs|
      invariant k <= |cs|
      invariant FirstUnusedFrom(cs, used, k) == FirstUnused(cs, used)
    {
      if cs[k].index !in used {
        return Some(cs[k]);
      }
      k := k + 1;
    }
    return None;
  }

  /** The candidate lists of oldMap, with an absent key read as no candidates. */
  function Lookup(oldMap: map<string, seq<Candidate>>, key: string): seq<Candidate> {
    if key in oldMap then oldMap[key] else []
  }

  /** oldMap after oldMap.get(key)!.push(c), the list being created first
      when the key is new. */
  function Pushed(oldMap: map<string, seq<Candidate>>, key: string, c: Candidate): map<string, seq<Candidate>> {
    oldMap[key := Lookup(oldMap, key) + [c]]
  }

  /** oldMap holds, under every key, the candidates among the first n old blocks. */
  ghost predicate MapHolds(oldMap: map<string, seq<Candidate>>, oldBlocks: seq<Block>, oldKeys: seq<string>, n: nat)
    requires n <= |oldBlocks| == |oldKeys|
  {
    forall key :: Lookup(oldMap, key) == CandidatesUpTo(oldBlocks, oldKeys, key, n)
  }

  /** oldMap: each key mapped to the old blocks with that key, in old order. */
  method BuildOldMap(oldBlocks: seq<Block>) returns (oldMap: map<string, seq<Candidate>>)
    ensures MapHolds(oldMap, oldBlocks, Keys(oldBlocks), |oldBlocks|)
  {
    oldMap := map[];
    for index := 0 to |oldBlocks|
      invariant MapHolds(oldMap, oldBlocks, Keys(oldBlocks), index)
    {
      oldMap := PushCandidate(oldMap, oldBlocks, index);
    }
  }

  /** One step of building oldMap: old block `index` is appended to the list
      of its key, which is created when the key is new. */
  method PushCandidate(oldMap: map<string, seq<Candidate>>, oldBlocks: seq<Block>, index: nat) returns (r: map<string, seq<Candidate>>)
    requires index < |oldBlocks|
    requires MapHolds(oldMap, oldBlocks, Keys(oldBlocks), index)
    ensures MapHolds(r, oldBlocks, Keys(oldBlocks), index + 1)
  {
    var block := oldBlocks[index];
    var key := BlockKey(block);
    r := oldMap;
    if key !in r {
      r := r[key := []];
    }
    r := r[key := r[key] + [Candidate(block, index)]];
    assert r == Pushed(oldMap, key, Candidate(block, index));
    LookupExtend(oldBlocks, Keys(oldBlocks), index, oldMap, r);
  }

  /** Appending old block `index` to the list of its key keeps oldMap in
      step with the candidate lists. */
  lemma LookupExtend(oldBlocks: seq<Block>, oldKeys: seq<string>, index: nat,
                     before: map<string, seq<Candidate>>, after: map<string, seq<Candidate>>)
    requires index < |oldBlocks| == |oldKeys|
    requires MapHolds(before, oldBlocks, oldKeys, index)
    requires after == Pushed(before, oldKeys[index], Candidate(oldBlocks[index], index))
    ensures MapHolds(after, oldBlocks, oldKeys, index + 1)
  {
    forall key ensures Lookup(after, key) == CandidatesUpTo(oldBlocks, oldKeys, key, index + 1) {
      assert Lookup(before, key) == CandidatesUpTo(oldBlocks, oldKeys, key, index);
      if key != oldKeys[index] {
        assert Lookup(after, key) == Lookup(before, key);
      }
    }
  }

  /** The first pass: each new block takes the first unused old block with
      its key, and a move is recorded when their indices differ. */
  method MatchPass(oldBlocks: seq<Block>, newBlocks: seq<Block>, oldMap: map<string, seq<Candidate>>)
    returns (usedOldIndices: set<nat>, matchedNewIndices: set<nat>, changes: seq<BlockChange>, ghost pairing: map<nat, nat>)
    requires forall key :: Lookup(oldMap, key) == CandidatesUpTo(oldBlocks, Keys(oldBlocks), key, |oldBlocks|)
    ensures MatchState(usedOldIndices, matchedNewIndices, changes, pairing)
            == MatchUpTo(oldBlocks, Keys(oldBlocks), newBlocks, Keys(newBlocks), |newBlocks|)
  {
    ghost var oldKeys, newKeys := Keys(oldBlocks), Keys(newBlocks);
    usedOldIndices, matchedNewIndices, changes, pairing := {}, {}, [], map[];
    for newIndex := 0 to |newBlocks|
      invariant MatchState(usedOldIndices, matchedNewIndices, changes, pairing)
                == MatchUpTo(oldBlocks, oldKeys, newBlocks, newKeys, newIndex)
    {
      usedOldIndices, matchedNewIndices, changes, pairing :=
        MatchNewBlock(oldBlocks, oldMap, usedOldIndices, matchedNewIndices, changes, pairing, newIndex, newBlocks[newIndex]);
      MatchUpToNext(oldBlocks, newBlocks, newIndex);
    }
  }

  /** One more new block of the first pass, with its key computed. */
  lemma MatchUpToNext(oldBlocks: seq<Block>, newBlocks: seq<Block>, i: nat)
    requires i < |newBlocks|
    ensures MatchUpTo(oldBlocks, Keys(oldBlocks), newBlocks, Keys(newBlocks), i + 1)
            == MatchStep(oldBlocks, Keys(oldBlocks), MatchUpTo(oldBlocks, Keys(oldBlocks), newBlocks, Keys(newBlocks), i),
                         i, newBlocks[i], BlockKey(newBlocks[i]))
  {
    assert Keys(newBlocks)[i] == BlockKey(newBlocks[i]);
  }

  /** The body of the first loop, for one new block. */
  method MatchNewBlock(oldBlocks: seq<Block>, oldMap: map<string, seq<Candidate>>,
                       usedOldIndices: set<nat>, matchedNewIndices: set<nat>, changes: seq<BlockChange>, ghost pairing: map<nat, nat>,
                       newIndex: nat, newBlock: Block)
    returns (used': set<nat>, matched': set<nat>, changes': seq<BlockChange>, ghost pairing': map<nat, nat>)
    requires forall key :: Lookup(oldMap, key) == CandidatesUpTo(oldBlocks, Keys(oldBlocks), key, |oldBlocks|)
    ensures MatchState(used', matched', changes', pairing')
            == MatchStep(oldBlocks, Keys(oldBlocks), MatchState(usedOldIndices, matchedNewIndices, changes, pairing),
                         newIndex, newBlock, BlockKey(newBlock))
  {
    used', matched', changes', pairing' := usedOldIndices, matchedNewIndices, changes, pairing;
    var key := BlockKey(newBlock);
    assert Lookup(oldMap, key) == CandidatesUpTo(oldBlocks, Keys(oldBlocks), key, |oldBlocks|);
    if key in oldMap && |oldMap[key]| > 0 {
      var found := FindUnused(oldMap[key], usedOldIndices);
      if found.Some? {
        var hit := found.value;
        used' := usedOldIndices + {hit.index};
        matched' := matchedNewIndices + {newIndex};
        pairing' := pairing[newIndex := hit.index];
        if hit.index != newIndex {
          changes' := changes + [BlockChange(Move, newIndex, Some(newBlock), Some(hit.block))];
        }
      }
    }
  }

  /** The second pass: a remove for every unused old index, in old order. */
  method RemovePass(oldBlocks: seq<Block>, usedOldIndices: set<nat>, changes: seq<BlockChange>) returns (r: seq<BlockChange>)
    ensures r == changes + RemovesUpTo(oldBlocks, usedOldIndices, |oldBlocks|)
  {
    r := changes;
    for oldIndex := 0 to |oldBlocks|
      invariant r == changes + RemovesUpTo(oldBlocks, usedOldIndices, oldIndex)
    {
      if oldIndex !in usedOldIndices {
        r := r + [BlockChange(Remove, oldIndex, None, Some(oldBlocks[oldIndex]))];
      }
    }
  }

  /** The third pass: an update or an add for every unmatched new index, in
      new order. */
  method AddPass(oldBlocks: seq<Block>, newBlocks: seq<Block>, usedOldIndices: set<nat>, matchedNewIndices: set<nat>,
                 changes: seq<BlockChange>) returns (r: seq<BlockChange>)
    ensures r == changes + AddsUpTo(oldBlocks, newBlocks, usedOldIndices, matchedNewIndices, |newBlocks|)
  {
    r := changes;
    for newIndex := 0 to |newBlocks|
      invariant r == changes + AddsUpTo(oldBlocks, newBlocks, usedOldIndices, matchedNewIndices, newIndex)
    {
      if newIndex !in matchedNewIndices {
        // oldBlocks[newIndex] is a block exactly when the index is in range
        if newIndex < |oldBlocks| && newIndex !in usedOldIndices {
          r := r + [BlockChange(Update, newIndex, Some(newBlocks[newIndex]), Some(oldBlocks[newIndex]))];
        } else {
          r := r + [BlockChange(Add, newIndex, Some(newBlocks[newIndex]), None)];
        }
      }
    }
  }

  /** diffBlocks: builds oldMap, then runs the match, remove and add/update
      passes, updating usedOldIndices, matchedNewIndices and the change list. */
  method DiffBlocks(oldBlocks: seq<Block>, newBlocks: seq<Block>) returns (changes: seq<BlockChange>)
    ensures changes == Diff(oldBlocks, newBlocks)
  {
    var oldMap := BuildOldMap(oldBlocks);
    var usedOldIndices, matchedNewIndices, moves, pairing := MatchPass(oldBlocks, newBlocks, oldMap);
    changes := RemovePass(oldBlocks, usedOldIndices, moves);
    changes := AddPass(oldBlocks, newBlocks, usedOldIndices, matchedNewIndices, changes);
  }

  // ---------------------------------------------------------------------
  // shouldFullRerender and getChangeStats
  // ---------------------------------------------------------------------

  /** shouldFullRerender: a full re-render is advised when there are no
      blocks or when more than half as many changes as blocks. */
  function ShouldFullRerender(changes: seq<BlockChange>, totalBlocks: nat): (r: bool)
    ensures r <==> totalBlocks == 0 || 2 * |changes| > totalBlocks
  {
    if totalBlocks == 0 then true
    else
      var changeRatio := (|changes| as real) / (totalBlocks as real);
      RatioAboveHalf(|changes|, totalBlocks);
      changeRatio > 0.5
  }

  /** c / t > 0.5 exactly when 2c > t. */
  lemma RatioAboveHalf(c: nat, t: nat)
    requires t > 0
    ensures (c as real) / (t as real) > 0.5 <==> 2 * c > t
  {
    var tr := t as real;
    var r := (c as real) / tr;
    assert r * tr == c as real;
    ShiftSign(r, tr, c as real);
    assert (2 * c) as real == 2.0 * (c as real);
  }

  /** With r·t = x and t > 0: r > 0.5 exactly when x > 0.5·t. */
  lemma ShiftSign(r: real, t: real, x: real)
    requires t > 0.0 && r * t == x
    ensures r > 0.5 <==> x > 0.5 * t
  {
    Distribute(r, 0.5, t);
    Distribute(0.5, r, t);
    ProductSign(r - 0.5, t);
    ProductSign(0.5 - r, t);
  }

  lemma Distribute(a: real, b: real, k: real)
    ensures (a - b) * k == a * k - b * k
  {
  }

  /** The sign of a product with a positive factor. */
  lemma ProductSign(a: real, b: real)
    requires b > 0.0
    ensures a > 0.0 ==> a * b > 0.0
    ensures a >= 0.0 ==> a * b >= 0.0
  {
  }

  datatype ChangeStats = ChangeStats(added: nat, removed: nat, updated: nat, moved: nat)

  /** changes.filter(c => c.type === t).length */
  function CountOf(changes: seq<BlockChange>, t: ChangeType): (n: nat)
    ensures n <= |changes|
  {
    if |changes| == 0 then 0
    else CountOf(changes[..|changes| - 1], t) + (if changes[|changes| - 1].ctype == t then 1 else 0)
  }

  function GetChangeStats(changes: seq<BlockChange>): ChangeStats {
    ChangeStats(CountOf(changes, Add), CountOf(changes, Remove), CountOf(changes, Update), CountOf(changes, Move))
  }

  /** The four counts add up to the number of changes. */
  lemma {:induction false} StatsSum(changes: seq<BlockChange>)
    ensures GetChangeStats(changes).added + GetChangeStats(changes).removed
            + GetChangeStats(changes).updated + GetChangeStats(changes).moved == |changes|
  {
    if |changes| > 0 {
      StatsSum(changes[..|changes| - 1]);
    }
  }

  /** Counting distributes over concatenation. */
  lemma {:induction false} CountOfAppend(a: seq<BlockChange>, b: seq<BlockChange>, t: ChangeType)
    ensures CountOf(a + b, t) == CountOf(a, t) + CountOf(b, t)
    decreases |b|
  {
    if |b| == 0 {
      assert a + b == a;
    } else {
      assert (a + b)[..|a + b| - 1] == a + b[..|b| - 1];
      CountOfAppend(a, b[..|b| - 1], t);
    }
  }

  /** A sequence whose changes all have types other than t counts no t. */
  lemma {:induction false} CountOfNone(cs: seq<BlockChange>, t: ChangeType)
    requires forall p :: 0 <= p < |cs| ==> cs[p].ctype != t
    ensures CountOf(cs, t) == 0
  {
    if |cs| > 0 {
      CountOfNone(cs[..|cs| - 1], t);
    }
  }

  /** A sequence whose changes all have type t counts each of them. */
  lemma {:induction false} CountOfAll(cs: seq<BlockChange>, t: ChangeType)
    requires forall p :: 0 <= p < |cs| ==> cs[p].ctype == t
    ensures CountOf(cs, t) == |cs|
  {
    if |cs| > 0 {
      CountOfAll(cs[..|cs| - 1], t);
    }
  }

  /** A sequence of adds and updates counts each change once. */
  lemma {:induction false} CountOfAddsAndUpdates(cs: seq<BlockChange>)
    requires forall p :: 0 <= p < |cs| ==> cs[p].ctype == Add || cs[p].ctype == Update
    ensures CountOf(cs, Add) + CountOf(cs, Update) == |cs|
  {
    if |cs| > 0 {
      CountOfAddsAndUpdates(cs[..|cs| - 1]);
    }
  }

  /** The members of s below n. */
  function Below(s: set<nat>, n: nat): (r: set<nat>)
    ensures forall i :: i in r <==> i in s && i < n
  {
    if n == 0 then {} else Below(s, n - 1) + (if n - 1 in s then {n - 1} else {})
  }

  /** The remove pass over n old blocks emits one change per index below n
      that is not used. */
  lemma {:induction false} RemovesLength(oldBlocks: seq<Block>, used: set<nat>, n: nat)
    requires n <= |oldBlocks|
    ensures |RemovesUpTo(oldBlocks, used, n)| + |Below(used, n)| == n
  {
    if n > 0 {
      RemovesLength(oldBlocks, used, n - 1);
      assert n - 1 !in Below(used, n - 1);
    }
  }

  /** The add/update pass over n new blocks emits one change per index below
      n that is not matched. */
  lemma {:induction false} AddsLength(oldBlocks: seq<Block>, newBlocks: seq<Block>, used: set<nat>, matched: set<nat>, n: nat)
    requires n <= |newBlocks|
    ensures |AddsUpTo(oldBlocks, newBlocks, used, matched, n)| + |Below(matched, n)| == n
  {
    if n > 0 {
      AddsLength(oldBlocks, newBlocks, used, matched, n - 1);
      assert n - 1 !in Below(matched, n - 1);
    }
  }

  /** The match pass matches only new indices below n. */
  lemma {:induction false} MatchedBelow(oldBlocks: seq<Block>, oldKeys: seq<string>, newBlocks: seq<Block>, newKeys: seq<string>, n: nat)
    requires |oldBlocks| == |oldKeys| && n <= |newBlocks| == |newKeys|
    ensures forall k :: k in MatchUpTo(oldBlocks, oldKeys, newBlocks, newKeys, n).matched ==> k < n
  {
    if n > 0 {
      MatchedBelow(oldBlocks, oldKeys, newBlocks, newKeys, n - 1);
    }
  }

  /** The match pass uses as many old indices as it matches new ones. */
  lemma {:induction false} MatchSizes(oldBlocks: seq<Block>, oldKeys: seq<string>, newBlocks: seq<Block>, newKeys: seq<string>, n: nat)
    requires |oldBlocks| == |oldKeys| && n <= |newBlocks| == |newKeys|
    ensures |MatchUpTo(oldBlocks, oldKeys, newBlocks, newKeys, n).used|
            == |MatchUpTo(oldBlocks, oldKeys, newBlocks, newKeys, n).matched|
  {
    if n > 0 {
      MatchSizes(oldBlocks, oldKeys, newBlocks, newKeys, n - 1);
      MatchedBelow(oldBlocks, oldKeys, newBlocks, newKeys, n - 1);
      var m := MatchUpTo(oldBlocks, oldKeys, newBlocks, newKeys, n - 1);
      var r := MatchOf(oldBlocks, oldKeys, newKeys[n - 1], m.used);
      if r.Some? {
        GrowTogether(m.used, m.matched, r.value.index, n - 1);
      }
    }
  }

  /** Adding a fresh element to each of two sets of equal size keeps them
      equal in size. */
  lemma GrowTogether(a: set<nat>, b: set<nat>, x: nat, y: nat)
    requires x !in a && y !in b && |a| == |b|
    ensures |a + {x}| == |b + {y}|
  {
  }

  lemma CountOfThree(a: seq<BlockChange>, b: seq<BlockChange>, c: seq<BlockChange>, t: ChangeType)
    ensures CountOf(a + b + c, t) == CountOf(a, t) + CountOf(b, t) + CountOf(c, t)
  {
    CountOfAppend(a + b, c, t);
    CountOfAppend(a, b, t);
  }

  /** The first pass counts as moves only. */
  lemma MovesCountOf(oldBlocks: seq<Block>, oldKeys: seq<string>, newBlocks: seq<Block>, newKeys: seq<string>, t: ChangeType)
    requires |oldBlocks| == |oldKeys| && |newBlocks| == |newKeys|
    ensures var moves := MatchUpTo(oldBlocks, oldKeys, newBlocks, newKeys, |newBlocks|).changes;
      CountOf(moves, t) == if t == Move then |moves| else 0
  {
    var moves := MatchUpTo(oldBlocks, oldKeys, newBlocks, newKeys, |newBlocks|).changes;
    MatchMovesSound(oldBlocks, oldKeys, newBlocks, newKeys, |newBlocks|);
    if t == Move {
      CountOfAll(moves, t);
    } else {
      CountOfNone(moves, t);
    }
  }

  /** The second pass counts as removes only. */
  lemma RemovesCountOf(oldBlocks: seq<Block>, used: set<nat>, t: ChangeType)
    ensures var removes := RemovesUpTo(oldBlocks, used, |oldBlocks|);
      CountOf(removes, t) == if t == Remove then |removes| else 0
  {
    var removes := RemovesUpTo(oldBlocks, used, |oldBlocks|);
    RemovesAreSound(oldBlocks, used, |oldBlocks|);
    if t == Remove {
      CountOfAll(removes, t);
    } else {
      CountOfNone(removes, t);
    }
  }

  /** The third pass counts as adds and updates only. */
  lemma AddsCountOf(oldBlocks: seq<Block>, newBlocks: seq<Block>, used: set<nat>, matched: set<nat>)
    ensures var adds := AddsUpTo(oldBlocks, newBlocks, used, matched, |newBlocks|);
      CountOf(adds, Add) + CountOf(adds, Update) == |adds| && CountOf(adds, Remove) == 0 && CountOf(adds, Move) == 0
  {
    var adds := AddsUpTo(oldBlocks, newBlocks, used, matched, |newBlocks|);
    AddsAreSound(oldBlocks, newBlocks, used, matched, |newBlocks|);
    CountOfAddsAndUpdates(adds);
    CountOfNone(adds, Remove);
    CountOfNone(adds, Move);
  }

  /** The count of a type in a diff is the sum over the three passes. */
  lemma DiffCountOf(oldBlocks: seq<Block>, oldKeys: seq<string>, newBlocks: seq<Block>, newKeys: seq<string>, t: ChangeType)
    requires |oldBlocks| == |oldKeys| && |newBlocks| == |newKeys|
    ensures var m := MatchUpTo(oldBlocks, oldKeys, newBlocks, newKeys, |newBlocks|);
      CountOf(DiffKeyed(oldBlocks, oldKeys, newBlocks, newKeys), t)
      == CountOf(m.changes, t) + CountOf(RemovesUpTo(oldBlocks, m.used, |oldBlocks|), t)
         + CountOf(AddsUpTo(oldBlocks, newBlocks, m.used, m.matched, |newBlocks|), t)
  {
    var m := MatchUpTo(oldBlocks, oldKeys, newBlocks, newKeys, |newBlocks|);
    CountOfThree(m.changes, RemovesUpTo(oldBlocks, m.used, |oldBlocks|),
                 AddsUpTo(oldBlocks, newBlocks, m.used, m.matched, |newBlocks|), t);
  }

  /** The removes of a diff are those of the remove pass. */
  lemma RemovedAreRemoves(oldBlocks: seq<Block>, oldKeys: seq<string>, newBlocks: seq<Block>, newKeys: seq<string>)
    requires |oldBlocks| == |oldKeys| && |newBlocks| == |newKeys|
    ensures var m := MatchUpTo(oldBlocks, oldKeys, newBlocks, newKeys, |newBlocks|);
      CountOf(DiffKeyed(oldBlocks, oldKeys, newBlocks, newKeys), Remove) == |RemovesUpTo(oldBlocks, m.used, |oldBlocks|)|
  {
    var m := MatchUpTo(oldBlocks, oldKeys, newBlocks, newKeys, |newBlocks|);
    DiffCountOf(oldBlocks, oldKeys, newBlocks, newKeys, Remove);
    MovesCountOf(oldBlocks, oldKeys, newBlocks, newKeys, Remove);
    RemovesCountOf(oldBlocks, m.used, Remove);
    AddsCountOf(oldBlocks, newBlocks, m.used, m.matched);
  }

  /** Every old block of a diff is either paired or removed. */
  lemma DiffRemovedCount(oldBlocks: seq<Block>, newBlocks: seq<Block>)
    ensures GetChangeStats(Diff(oldBlocks, newBlocks)).removed + |Pairing(oldBlocks, newBlocks)| == |oldBlocks|
  {
    var ok, nk := Keys(oldBlocks), Keys(newBlocks);
    var m := MatchUpTo(oldBlocks, ok, newBlocks, nk, |newBlocks|);
    RemovedAreRemoves(oldBlocks, ok, newBlocks, nk);
    MatchPairing(oldBlocks, ok, newBlocks, nk, |newBlocks|);
    MatchSizes(oldBlocks, ok, newBlocks, nk, |newBlocks|);
    RemovesLength(oldBlocks, m.used, |oldBlocks|);
    PairingSizes(ok, nk, |newBlocks|, m);
  }

  /** Every new block of a diff is either paired, or added, or updated. */
  lemma DiffAddedCount(oldBlocks: seq<Block>, newBlocks: seq<Block>)
    ensures GetChangeStats(Diff(oldBlocks, newBlocks)).added + GetChangeStats(Diff(oldBlocks, newBlocks)).updated
            + |Pairing(oldBlocks, newBlocks)| == |newBlocks|
  {
    var ok, nk := Keys(oldBlocks), Keys(newBlocks);
    var m := MatchUpTo(oldBlocks, ok, newBlocks, nk, |newBlocks|);
    DiffCountOf(oldBlocks, ok, newBlocks, nk, Add);
    DiffCountOf(oldBlocks, ok, newBlocks, nk, Update);
    MovesCountOf(oldBlocks, ok, newBlocks, nk, Add);
    MovesCountOf(oldBlocks, ok, newBlocks, nk, Update);
    RemovesCountOf(oldBlocks, m.used, Add);
    RemovesCountOf(oldBlocks, m.used, Update);
    AddsCountOf(oldBlocks, newBlocks, m.used, m.matched);
    MatchPairing(oldBlocks, ok, newBlocks, nk, |newBlocks|);
    PairingSizes(ok, nk, |newBlocks|, m);
    AddsLength(oldBlocks, newBlocks, m.used, m.matched, |newBlocks|);
  }

  /** A pairing over n new indices: its keys lie below n and its values
      below the number of old blocks, and it has one entry per key. */
  lemma PairingSizes(oldKeys: seq<string>, newKeys: seq<string>, n: nat, m: MatchState)
    requires n <= |newKeys| && PairingOk(oldKeys, newKeys, n, m)
    ensures Below(m.matched, n) == m.matched && Below(m.used, |oldKeys|) == m.used
    ensures |m.pairing| == |m.matched|
  {
    BelowAll(m.matched, n);
    forall v | v in m.used ensures v < |oldKeys| {
      var k :| k in m.pairing && m.pairing[k] == v;
    }
    BelowAll(m.used, |oldKeys|);
    assert |m.pairing| == |m.pairing.Keys|;
  }

  lemma BelowAll(s: set<nat>, n: nat)
    requires forall i :: i in s ==> i < n
    ensures Below(s, n) == s
  {
  }

  /** The moves a diff reports are the displaced pairs the first pass
      recorded, and an unchanged list reports nothing. */
  lemma DiffStatsMoves(oldBlocks: seq<Block>, newBlocks: seq<Block>)
    ensures GetChangeStats(Diff(oldBlocks, newBlocks)).moved
            == |MatchUpTo(oldBlocks, Keys(oldBlocks), newBlocks, Keys(newBlocks), |newBlocks|).changes|
    ensures GetChangeStats(Diff(oldBlocks, oldBlocks)) == ChangeStats(0, 0, 0, 0)
  {
    var ok, nk := Keys(oldBlocks), Keys(newBlocks);
    var m := MatchUpTo(oldBlocks, ok, newBlocks, nk, |newBlocks|);
    DiffCountOf(oldBlocks, ok, newBlocks, nk, Move);
    MovesCountOf(oldBlocks, ok, newBlocks, nk, Move);
    RemovesCountOf(oldBlocks, m.used, Move);
    AddsCountOf(oldBlocks, newBlocks, m.used, m.matched);
    DiffIdentical(oldBlocks);
  }
}
