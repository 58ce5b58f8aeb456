/** The state of lazy n-best search on values: one growing list of ranked
    derivations per item, its candidate pool, and what the lists mean. */
module NBestLists {
  import opened Forests

  /** A derivation by ranks: a deduction and, for each antecedent, a place in
      that antecedent's list. */
  datatype Entry = Entry(cost: real, ded: nat, ranks: seq<nat>)

  type Key = (nat, seq<nat>)

  function KeyOf(c: Entry): Key {
    (c.ded, c.ranks)
  }

  /** An item's list so far, its candidates, and every key ever entered. */
  datatype NBInfo = NBInfo(nbest: seq<Entry>, cands: set<Entry>, index: set<Key>)

  type Infos = map<nat, NBInfo>

  /** The antecedents of one deduction of an item. */
  function Ants(f: Forest, i: nat, e: nat): seq<nat> {
    if i < |f| && e < |f[i].deds| then f[i].deds[e].ants else []
  }

  predicate Listed(infos: Infos, j: nat, p: nat) {
    j in infos && p < |infos[j].nbest|
  }

  /** The cost of the entry at one place; the best cost is known beforehand. */
  function PosCost(f: Forest, infos: Infos, j: nat, p: nat): real {
    if p == 0 then if j < |f| then f[j].viterbi else 0.0
    else if Listed(infos, j, p) then infos[j].nbest[p].cost
    else 0.0
  }

  /** Sum of the costs at the ranks of the first `k` antecedents. */
  function RankSum(f: Forest, infos: Infos, ants: seq<nat>, ranks: seq<nat>, k: nat): real
    requires k <= |ants| && k <= |ranks|
  {
    if k == 0 then 0.0
    else RankSum(f, infos, ants, ranks, k - 1) + PosCost(f, infos, ants[k - 1], ranks[k - 1])
  }

  /** The entry names a deduction and existing places, at its exact cost. */
  predicate EntryOk(f: Forest, infos: Infos, i: nat, c: Entry) {
    && i < |f| && c.ded < |f[i].deds| && |c.ranks| == |f[i].deds[c.ded].ants|
    && (forall a :: 0 <= a < |c.ranks| ==> c.ranks[a] == 0 || Listed(infos, f[i].deds[c.ded].ants[a], c.ranks[a]))
    && c.cost == f[i].deds[c.ded].dcost + RankSum(f, infos, f[i].deds[c.ded].ants, c.ranks, |c.ranks|)
  }

  /** Everything the item can derive is in its list. */
  predicate Exhausted(infos: Infos, j: nat) {
    j in infos && infos[j].cands == {}
  }

  /** The entry's place in antecedent `a` exists, and its successor there has
      been entered unless that antecedent's list ends. */
  predicate Stepped(f: Forest, infos: Infos, i: nat, c: Entry, a: nat) {
    && i in infos && a < |c.ranks| && a < |Ants(f, i, c.ded)|
    && var j := Ants(f, i, c.ded)[a];
       && Listed(infos, j, c.ranks[a])
       && ((c.ded, c.ranks[a := c.ranks[a] + 1]) in infos[i].index
           || (Exhausted(infos, j) && |infos[j].nbest| <= c.ranks[a] + 1))
  }

  /** The key belongs to a listed entry or to a candidate. */
  predicate Entered(nb: NBInfo, key: Key) {
    (exists k :: 0 <= k < |nb.nbest| && KeyOf(nb.nbest[k]) == key) || (exists c :: c in nb.cands && KeyOf(c) == key)
  }

  /** The index is the keys of the list and the pool, each key once. */
  predicate IndexOk(nb: NBInfo) {
    && (forall k :: 0 <= k < |nb.nbest| ==> KeyOf(nb.nbest[k]) in nb.index)
    && (forall c :: c in nb.cands ==> KeyOf(c) in nb.index)
    && (forall key :: key in nb.index ==> Entered(nb, key))
    && (forall j, k :: 0 <= j < k < |nb.nbest| ==> KeyOf(nb.nbest[j]) != KeyOf(nb.nbest[k]))
    && (forall k, c :: 0 <= k < |nb.nbest| && c in nb.cands ==> KeyOf(nb.nbest[k]) != KeyOf(c))
    && (forall c, c' :: c in nb.cands && c' in nb.cands && KeyOf(c) == KeyOf(c') ==> c == c')
  }

  /** The list is nondecreasing, and no candidate is cheaper than its end. */
  predicate Ordered(nb: NBInfo, best: real) {
    && (forall j, k :: 0 <= j <= k < |nb.nbest| ==> nb.nbest[j].cost <= nb.nbest[k].cost)
    && (forall k, c :: 0 <= k < |nb.nbest| && c in nb.cands ==> nb.nbest[k].cost <= c.cost)
    && (forall c :: c in nb.cands ==> best <= c.cost)
    && (nb.nbest != [] ==> nb.nbest[0].cost == best)
  }

  function Zeros(n: nat): (z: seq<nat>)
    ensures |z| == n && forall k :: 0 <= k < n ==> z[k] == 0
  {
    seq(n, _ => 0)
  }

  /** The first candidate of every deduction has been entered. */
  predicate Seeded(f: Forest, i: nat, nb: NBInfo)
    requires i < |f|
  {
    forall e :: 0 <= e < |f[i].deds| ==> (e, Zeros(|f[i].deds[e].ants|)) in nb.index
  }

  predicate EntriesOk(f: Forest, infos: Infos, i: nat)
    requires i in infos
  {
    && (forall k :: 0 <= k < |infos[i].nbest| ==> EntryOk(f, infos, i, infos[i].nbest[k]))
    && (forall c :: c in infos[i].cands ==> EntryOk(f, infos, i, c))
  }

  /** All listed entries are stepped, the last one in its first `m` places. */
  predicate SteppedTo(f: Forest, infos: Infos, i: nat, m: nat)
    requires i in infos
  {
    forall k, a :: 0 <= k < |infos[i].nbest| && 0 <= a < |infos[i].nbest[k].ranks| && (k + 1 < |infos[i].nbest| || a < m) ==>
      Stepped(f, infos, i, infos[i].nbest[k], a)
  }

  /** The item's search is sound, except that the successors of the last
      listed entry are entered only for its first `m` antecedents. */
  predicate Partial(f: Forest, infos: Infos, i: nat, m: nat) {
    && i in infos && i < |f| && EntriesOk(f, infos, i) && IndexOk(infos[i])
    && Ordered(infos[i], f[i].viterbi) && Seeded(f, i, infos[i]) && SteppedTo(f, infos, i, m)
  }

  /** The item's search is sound. */
  predicate Local(f: Forest, infos: Infos, i: nat) {
    && i in infos
    && (infos[i].nbest == [] || Partial(f, infos, i, |infos[i].nbest[|infos[i].nbest| - 1].ranks|))
    && (infos[i].nbest == [] ==> Partial(f, infos, i, 0))
  }

  // ----- lists only grow

  /** The item's list only gets longer, and not at all once it is exhausted. */
  predicate GrowsAt(infos: Infos, infos': Infos, j: nat) {
    j in infos ==>
      && j in infos' && |infos[j].nbest| <= |infos'[j].nbest|
      && (forall k :: 0 <= k < |infos[j].nbest| ==> infos'[j].nbest[k] == infos[j].nbest[k])
      && (infos[j].cands == {} ==> infos'[j] == infos[j])
  }

  predicate Grows(infos: Infos, infos': Infos) {
    forall j :: j in infos ==> GrowsAt(infos, infos', j)
  }

  /** The lists of everything the item's deductions need have only grown. */
  ghost predicate GrowsUnder(f: Forest, infos: Infos, infos': Infos, i: nat) {
    forall e, a :: 0 <= a < |Ants(f, i, e)| ==> GrowsAt(infos, infos', Ants(f, i, e)[a])
  }

  lemma {:induction false} RankSumGrows(f: Forest, infos: Infos, infos': Infos, ants: seq<nat>, ranks: seq<nat>, k: nat)
    requires k <= |ants| && k <= |ranks|
    requires forall a :: 0 <= a < k ==> GrowsAt(infos, infos', ants[a])
    requires forall a :: 0 <= a < k ==> ranks[a] == 0 || Listed(infos, ants[a], ranks[a])
    ensures RankSum(f, infos', ants, ranks, k) == RankSum(f, infos, ants, ranks, k)
  {
    if k > 0 {
      RankSumGrows(f, infos, infos', ants, ranks, k - 1);
      assert GrowsAt(infos, infos', ants[k - 1]);
    }
  }

  lemma EntryGrows(f: Forest, infos: Infos, infos': Infos, i: nat, c: Entry)
    requires EntryOk(f, infos, i, c) && GrowsUnder(f, infos, infos', i)
    ensures EntryOk(f, infos', i, c)
  {
    var ants := Ants(f, i, c.ded);
    forall a | 0 <= a < |ants| ensures GrowsAt(infos, infos', ants[a]) {
      assert GrowsAt(infos, infos', Ants(f, i, c.ded)[a]);
    }
    RankSumGrows(f, infos, infos', ants, c.ranks, |c.ranks|);
  }

  lemma SteppedGrows(f: Forest, infos: Infos, infos': Infos, i: nat, c: Entry, a: nat)
    requires Stepped(f, infos, i, c, a) && GrowsUnder(f, infos, infos', i)
    requires i in infos' && infos[i].index <= infos'[i].index
    ensures Stepped(f, infos', i, c, a)
  {
    assert GrowsAt(infos, infos', Ants(f, i, c.ded)[a]);
  }

  /** An item's own search state stays sound while the lists below it grow. */
  lemma PartialGrows(f: Forest, infos: Infos, infos': Infos, i: nat, m: nat)
    requires Partial(f, infos, i, m) && GrowsUnder(f, infos, infos', i) && i in infos' && infos'[i] == infos[i]
    ensures Partial(f, infos', i, m)
  {
    forall k | 0 <= k < |infos[i].nbest| ensures EntryOk(f, infos', i, infos[i].nbest[k]) {
      EntryGrows(f, infos, infos', i, infos[i].nbest[k]);
    }
    forall c | c in infos[i].cands ensures EntryOk(f, infos', i, c) {
      EntryGrows(f, infos, infos', i, c);
    }
    forall k, a | 0 <= k < |infos[i].nbest| && 0 <= a < |infos[i].nbest[k].ranks| && (k + 1 < |infos[i].nbest| || a < m)
      ensures Stepped(f, infos', i, infos[i].nbest[k], a)
    {
      SteppedGrows(f, infos, infos', i, infos[i].nbest[k], a);
    }
  }

  lemma LocalGrows(f: Forest, infos: Infos, infos': Infos, i: nat)
    requires Local(f, infos, i) && GrowsUnder(f, infos, infos', i) && i in infos' && infos'[i] == infos[i]
    ensures Local(f, infos', i)
  {
    hide Partial;
    if infos[i].nbest == [] {
      PartialGrows(f, infos, infos', i, 0);
    } else {
      PartialGrows(f, infos, infos', i, |infos[i].nbest[|infos[i].nbest| - 1].ranks|);
    }
  }

  // ----- starting an item

  /** The pool and index an item starts with. */
  function Seed(f: Forest, i: nat): NBInfo
    requires i < |f|
  {
    NBInfo([],
           set e | 0 <= e < |f[i].deds| :: Entry(f[i].deds[e].viterbi, e, Zeros(|f[i].deds[e].ants|)),
           set e | 0 <= e < |f[i].deds| :: (e, Zeros(|f[i].deds[e].ants|)))
  }

  lemma {:induction false} RankSumZeros(f: Forest, infos: Infos, ants: seq<nat>, ranks: seq<nat>, k: nat)
    requires k <= |ants| && k <= |ranks| && forall a :: 0 <= a < k ==> ranks[a] == 0
    ensures RankSum(f, infos, ants, ranks, k) == AntSum(f, ants, k)
  {
    if k > 0 { RankSumZeros(f, infos, ants, ranks, k - 1); }
  }

  lemma SeedIsSound(f: Forest, infos: Infos, i: nat)
    requires i < |f| && ViterbiAt(f, i) && i in infos && infos[i] == Seed(f, i)
    ensures Local(f, infos, i) && infos[i].cands != {}
  {
    var nb := infos[i];
    forall c | c in nb.cands ensures EntryOk(f, infos, i, c) && f[i].viterbi <= c.cost {
      RankSumZeros(f, infos, f[i].deds[c.ded].ants, c.ranks, |c.ranks|);
    }
    forall key | key in nb.index ensures Entered(nb, key) {
      var c := Entry(f[i].deds[key.0].viterbi, key.0, Zeros(|f[i].deds[key.0].ants|));
      assert c in nb.cands && KeyOf(c) == key;
    }
    var e :| 0 <= e < |f[i].deds| && f[i].deds[e].viterbi == f[i].viterbi;
    assert Entry(f[i].deds[e].viterbi, e, Zeros(|f[i].deds[e].ants|)) in nb.cands;
  }

  // ----- taking the best candidate

  function Popped(nb: NBInfo, c: Entry): NBInfo {
    nb.(nbest := nb.nbest + [c], cands := nb.cands - {c})
  }

  predicate Cheapest(nb: NBInfo, c: Entry) {
    c in nb.cands && forall c' :: c' in nb.cands ==> c.cost <= c'.cost
  }

  lemma PopIndexOk(nb: NBInfo, c: Entry)
    requires IndexOk(nb) && c in nb.cands
    ensures IndexOk(Popped(nb, c))
  {
    hide Entered;
    var nb' := Popped(nb, c);
    forall key | key in nb'.index ensures Entered(nb', key) {
      EnteredStays(nb, nb', key);
    }
  }

  /** The first entry taken has the best cost of all. */
  lemma FirstIsBest(f: Forest, infos: Infos, i: nat, c: Entry)
    requires Local(f, infos, i) && ViterbiAt(f, i) && Cheapest(infos[i], c) && infos[i].nbest == []
    ensures c.cost == f[i].viterbi
  {
    var e :| 0 <= e < |f[i].deds| && f[i].deds[e].viterbi == f[i].viterbi;
    var key := (e, Zeros(|f[i].deds[e].ants|));
    assert Entered(infos[i], key);
    var d :| d in infos[i].cands && KeyOf(d) == key;
    assert EntryOk(f, infos, i, d);
    RankSumZeros(f, infos, f[i].deds[e].ants, d.ranks, |d.ranks|);
  }

  lemma PopOrdered(nb: NBInfo, best: real, c: Entry)
    requires Ordered(nb, best) && Cheapest(nb, c) && (nb.nbest == [] ==> c.cost == best)
    ensures Ordered(Popped(nb, c), best)
  {
  }

  lemma PopGrows(f: Forest, infos: Infos, i: nat, c: Entry)
    requires i in infos && c in infos[i].cands
    ensures Grows(infos, infos[i := Popped(infos[i], c)]) && GrowsUnder(f, infos, infos[i := Popped(infos[i], c)], i)
  {
    var infos' := infos[i := Popped(infos[i], c)];
    forall j ensures GrowsAt(infos, infos', j) {}
    forall e, a | 0 <= a < |Ants(f, i, e)| ensures GrowsAt(infos, infos', Ants(f, i, e)[a]) {}
  }

  lemma PopEntriesOk(f: Forest, infos: Infos, infos': Infos, i: nat, c: Entry)
    requires i in infos && c in infos[i].cands && EntriesOk(f, infos, i)
    requires infos' == infos[i := Popped(infos[i], c)]
    ensures EntriesOk(f, infos', i)
  {
    hide EntryOk;
    PopGrows(f, infos, i, c);
    var nb, nb' := infos[i], infos'[i];
    forall k | 0 <= k < |nb'.nbest| ensures EntryOk(f, infos', i, nb'.nbest[k]) {
      if k < |nb.nbest| { assert nb'.nbest[k] == nb.nbest[k]; }
      EntryGrows(f, infos, infos', i, nb'.nbest[k]);
    }
    forall d | d in nb'.cands ensures EntryOk(f, infos', i, d) {
      EntryGrows(f, infos, infos', i, d);
    }
  }

  lemma PopSteppedTo(f: Forest, infos: Infos, infos': Infos, i: nat, c: Entry)
    requires i in infos && c in infos[i].cands && infos' == infos[i := Popped(infos[i], c)]
    requires infos[i].nbest != [] ==> SteppedTo(f, infos, i, |infos[i].nbest[|infos[i].nbest| - 1].ranks|)
    ensures SteppedTo(f, infos', i, 0)
  {
    hide Stepped;
    PopGrows(f, infos, i, c);
    var nb, nb' := infos[i], infos'[i];
    forall k, a | 0 <= k < |nb'.nbest| && 0 <= a < |nb'.nbest[k].ranks| && k + 1 < |nb'.nbest|
      ensures Stepped(f, infos', i, nb'.nbest[k], a)
    {
      assert nb'.nbest[k] == nb.nbest[k];
      SteppedGrows(f, infos, infos', i, nb.nbest[k], a);
    }
  }

  /** Taking the cheapest candidate leaves its successors to be entered. */
  lemma PopKeeps(f: Forest, infos: Infos, infos': Infos, i: nat, c: Entry)
    requires Local(f, infos, i) && ViterbiAt(f, i) && Cheapest(infos[i], c)
    requires infos' == infos[i := Popped(infos[i], c)]
    ensures Partial(f, infos', i, 0) && Grows(infos, infos')
  {
    if infos[i].nbest == [] { FirstIsBest(f, infos, i, c); }
    hide EntriesOk, IndexOk, Ordered, SteppedTo, ViterbiAt, Grows, GrowsUnder;
    PopGrows(f, infos, i, c);
    PopIndexOk(infos[i], c);
    PopOrdered(infos[i], f[i].viterbi, c);
    PopEntriesOk(f, infos, infos', i, c);
    PopSteppedTo(f, infos, infos', i, c);
  }

  // ----- entering a successor

  /** A listed entry with its rank in antecedent `a` raised by one, priced
      from the entry's own cost. */
  function Raised(f: Forest, infos: Infos, i: nat, c: Entry, a: nat): Entry
    requires a < |c.ranks| && a < |Ants(f, i, c.ded)| && Listed(infos, Ants(f, i, c.ded)[a], c.ranks[a] + 1)
  {
    var list := infos[Ants(f, i, c.ded)[a]].nbest;
    Entry(c.cost - list[c.ranks[a]].cost + list[c.ranks[a] + 1].cost, c.ded, c.ranks[a := c.ranks[a] + 1])
  }

  function Entering(nb: NBInfo, c: Entry): NBInfo {
    nb.(cands := nb.cands + {c}, index := nb.index + {KeyOf(c)})
  }

  lemma {:induction false} RankSumRaise(f: Forest, infos: Infos, ants: seq<nat>, ranks: seq<nat>, a: nat, k: nat)
    requires a < |ants| && a < |ranks| && k <= |ants| && k <= |ranks|
    ensures RankSum(f, infos, ants, ranks[a := ranks[a] + 1], k)
         == RankSum(f, infos, ants, ranks, k)
            + (if a < k then PosCost(f, infos, ants[a], ranks[a] + 1) - PosCost(f, infos, ants[a], ranks[a]) else 0.0)
  {
    if k > 0 { RankSumRaise(f, infos, ants, ranks, a, k - 1); }
  }

  /** The price of a raised entry is its exact cost, and not below the
      original's. */
  lemma RaisedOk(f: Forest, infos: Infos, i: nat, c: Entry, a: nat)
    requires EntryOk(f, infos, i, c) && a < |c.ranks|
    requires Listed(infos, f[i].deds[c.ded].ants[a], c.ranks[a] + 1)
    requires f[i].deds[c.ded].ants[a] < |f|
    requires Ordered(infos[f[i].deds[c.ded].ants[a]], f[f[i].deds[c.ded].ants[a]].viterbi)
    ensures EntryOk(f, infos, i, Raised(f, infos, i, c, a)) && c.cost <= Raised(f, infos, i, c, a).cost
  {
    RankSumRaise(f, infos, f[i].deds[c.ded].ants, c.ranks, a, |c.ranks|);
  }

  /** Entries that stay listed or stay candidates stay entered. */
  lemma EnteredStays(nb: NBInfo, nb': NBInfo, key: Key)
    requires Entered(nb, key) && |nb.nbest| <= |nb'.nbest|
    requires forall k :: 0 <= k < |nb.nbest| ==> nb'.nbest[k] == nb.nbest[k]
    requires forall c :: c in nb.cands ==> c in nb'.cands || (|nb'.nbest| > 0 && nb'.nbest[|nb'.nbest| - 1] == c)
    ensures Entered(nb', key)
  {
    if k :| 0 <= k < |nb.nbest| && KeyOf(nb.nbest[k]) == key {
      assert nb'.nbest[k] == nb.nbest[k];
    } else {
      var c :| c in nb.cands && KeyOf(c) == key;
      if c !in nb'.cands { assert KeyOf(nb'.nbest[|nb'.nbest| - 1]) == key; }
    }
  }

  lemma EnteringIndexOk(nb: NBInfo, d: Entry)
    requires IndexOk(nb) && KeyOf(d) !in nb.index
    ensures IndexOk(Entering(nb, d))
  {
    var nb' := Entering(nb, d);
    assert d in nb'.cands;
    forall key | key in nb'.index ensures Entered(nb', key) {
      if key in nb.index { EnteredStays(nb, nb', key); }
    }
    hide Entered;
  }

  lemma EnteringGrows(f: Forest, rank: seq<nat>, infos: Infos, i: nat, d: Entry)
    requires Acyclic(f, rank) && i < |f| && i in infos
    ensures GrowsUnder(f, infos, infos[i := Entering(infos[i], d)], i)
  {
    assert Descends(f, rank, i);
    var infos' := infos[i := Entering(infos[i], d)];
    forall e, a | 0 <= a < |Ants(f, i, e)| ensures GrowsAt(infos, infos', Ants(f, i, e)[a]) {}
  }

  /** The test made before entering a successor of the entry `c`. */
  predicate MayEnter(f: Forest, infos: Infos, i: nat, c: Entry, a: nat) {
    && i in infos && a < |c.ranks| && a < |Ants(f, i, c.ded)|
    && Listed(infos, Ants(f, i, c.ded)[a], c.ranks[a] + 1)
    && (c.ded, c.ranks[a := c.ranks[a] + 1]) !in infos[i].index
  }

  function AfterStep(f: Forest, infos: Infos, i: nat, c: Entry, a: nat): Infos
    requires i in infos
  {
    if MayEnter(f, infos, i, c, a) then infos[i := Entering(infos[i], Raised(f, infos, i, c, a))] else infos
  }

  /** An item with a deduction and an empty pool has a nonempty list. */
  lemma ExhaustedIsListed(f: Forest, infos: Infos, j: nat)
    requires Local(f, infos, j) && ViterbiAt(f, j) && infos[j].cands == {}
    ensures infos[j].nbest != []
  {
    var e :| 0 <= e < |f[j].deds| && f[j].deds[e].viterbi == f[j].viterbi;
    assert Entered(infos[j], (e, Zeros(|f[j].deds[e].ants|)));
  }

  lemma EnteringEntriesOk(f: Forest, infos: Infos, infos': Infos, i: nat, d: Entry)
    requires i in infos && EntriesOk(f, infos, i) && EntryOk(f, infos, i, d)
    requires infos' == infos[i := Entering(infos[i], d)] && GrowsUnder(f, infos, infos', i)
    ensures EntriesOk(f, infos', i)
  {
    hide EntryOk, GrowsUnder;
    var nb := infos[i];
    forall k | 0 <= k < |nb.nbest| ensures EntryOk(f, infos', i, nb.nbest[k]) {
      EntryGrows(f, infos, infos', i, nb.nbest[k]);
    }
    forall c | c in infos'[i].cands ensures EntryOk(f, infos', i, c) {
      EntryGrows(f, infos, infos', i, c);
    }
  }

  /** The raised entry has been entered or there is nothing to enter. */
  lemma StepIsStepped(f: Forest, rank: seq<nat>, infos: Infos, i: nat, c: Entry, a: nat)
    requires Acyclic(f, rank) && i in infos && EntryOk(f, infos, i, c) && a < |c.ranks|
    requires f[i].deds[c.ded].ants[a] < |f| && f[i].deds[c.ded].ants[a] in infos
    requires infos[f[i].deds[c.ded].ants[a]].nbest != []
    requires c.ranks[a] + 2 <= |infos[f[i].deds[c.ded].ants[a]].nbest| || infos[f[i].deds[c.ded].ants[a]].cands == {}
    ensures Stepped(f, AfterStep(f, infos, i, c, a), i, c, a)
  {
    assert Descends(f, rank, i);
  }

  lemma StepSteppedTo(f: Forest, infos: Infos, infos': Infos, i: nat, a: nat)
    requires i in infos && SteppedTo(f, infos, i, a) && infos[i].nbest != []
    requires i in infos' && infos'[i].nbest == infos[i].nbest && infos[i].index <= infos'[i].index
    requires GrowsUnder(f, infos, infos', i)
    requires Stepped(f, infos', i, infos[i].nbest[|infos[i].nbest| - 1], a)
    ensures SteppedTo(f, infos', i, a + 1)
  {
    hide Stepped, GrowsUnder;
    var nb := infos[i];
    forall k, b | 0 <= k < |nb.nbest| && 0 <= b < |nb.nbest[k].ranks| && (k + 1 < |nb.nbest| || b < a + 1)
      ensures Stepped(f, infos', i, nb.nbest[k], b)
    {
      if k + 1 < |nb.nbest| || b < a { SteppedGrows(f, infos, infos', i, nb.nbest[k], b); }
    }
  }

  lemma EnteringOrdered(nb: NBInfo, best: real, d: Entry)
    requires Ordered(nb, best) && nb.nbest != [] && nb.nbest[|nb.nbest| - 1].cost <= d.cost
    ensures Ordered(Entering(nb, d), best)
  {
  }

  lemma EnterKeeps(f: Forest, rank: seq<nat>, infos: Infos, infos': Infos, i: nat, a: nat, d: Entry)
    requires Acyclic(f, rank) && Partial(f, infos, i, a) && infos[i].nbest != []
    requires EntryOk(f, infos, i, d) && KeyOf(d) !in infos[i].index
    requires infos[i].nbest[|infos[i].nbest| - 1].cost <= d.cost
    requires infos' == infos[i := Entering(infos[i], d)]
    requires Stepped(f, infos', i, infos[i].nbest[|infos[i].nbest| - 1], a)
    ensures Partial(f, infos', i, a + 1)
  {
    EnteringOrdered(infos[i], f[i].viterbi, d);
    hide EntryOk, EntriesOk, IndexOk, SteppedTo, Stepped, GrowsUnder, Acyclic, Ordered;
    EnteringGrows(f, rank, infos, i, d);
    EnteringEntriesOk(f, infos, infos', i, d);
    EnteringIndexOk(infos[i], d);
    StepSteppedTo(f, infos, infos', i, a);
  }

  /** Entering one successor of the last listed entry. */
  lemma StepKeeps(f: Forest, rank: seq<nat>, infos: Infos, i: nat, a: nat, c: Entry, j: nat)
    requires Acyclic(f, rank) && Partial(f, infos, i, a) && infos[i].nbest != []
    requires c == infos[i].nbest[|infos[i].nbest| - 1] && a < |c.ranks| && a < |Ants(f, i, c.ded)| && j == Ants(f, i, c.ded)[a]
    requires j < |f| && Local(f, infos, j) && ViterbiAt(f, j)
    requires c.ranks[a] + 2 <= |infos[j].nbest| || infos[j].cands == {}
    ensures Partial(f, AfterStep(f, infos, i, c, a), i, a + 1)
  {
    assert EntryOk(f, infos, i, c);
    assert Ordered(infos[j], f[j].viterbi);
    if infos[j].cands == {} { ExhaustedIsListed(f, infos, j); }
    StepIsStepped(f, rank, infos, i, c, a);
    hide EntriesOk, IndexOk, SteppedTo, Stepped, Local, GrowsUnder, Acyclic, ViterbiAt, Ordered, Seeded, Entered;
    if MayEnter(f, infos, i, c, a) {
      RaisedOk(f, infos, i, c, a);
      hide Partial;
      EnterKeeps(f, rank, infos, AfterStep(f, infos, i, c, a), i, a, Raised(f, infos, i, c, a));
    } else {
      UnchangedGrows(f, infos, i);
      StepSteppedTo(f, infos, infos, i, a);
    }
  }

  lemma UnchangedGrows(f: Forest, infos: Infos, i: nat)
    ensures GrowsUnder(f, infos, infos, i)
  {
    forall e, a | 0 <= a < |Ants(f, i, e)| ensures GrowsAt(infos, infos, Ants(f, i, e)[a]) {}
  }
}
