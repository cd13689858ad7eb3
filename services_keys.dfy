/**
 * services/keys_service.go: the key registry. An in-memory map from key to
 * record, persisted as one sorted list in keys.json (written to a temporary
 * file and renamed over the canonical one, so a failed flush leaves the
 * canonical file as it was).
 */
module Keys {
  import opened Wrappers
  import Types
  import Helper

  datatype KeyInfo = KeyInfo(key: string, createdAt: int, comment: string)

  /** keys.json as Load finds it; JSON is abstracted to "decodes to this list" or "does not decode". */
  datatype KeysFile = Missing | Unreadable | Malformed | Stored(list: seq<KeyInfo>)

  datatype KeyError = ReadFailed | DecodeFailed | FlushFailed | RandFailed | Collision

  /** Attempts Generate makes for one key before giving up on the whole call. */
  const MaxAttemptsPerKey := 10000

  /** Every record is filed under its own key (Load and Generate both keep this). */
  ghost predicate WellKeyed(m: map<string, KeyInfo>) {
    forall k :: k in m ==> m[k].key == k
  }

  // ---------------------------------------------------------------------------
  // Ordering by CreatedAt (sort.Slice with Before or After as the less function)

  /** The sort key: CreatedAt, negated for newest-first. */
  function Rank(a: KeyInfo, ascending: bool): int {
    if ascending then a.createdAt else -a.createdAt
  }

  predicate InOrder(a: KeyInfo, b: KeyInfo, ascending: bool) {
    Rank(a, ascending) <= Rank(b, ascending)
  }

  ghost predicate SortedBy(s: seq<KeyInfo>, ascending: bool) {
    forall i, j :: 0 <= i < j < |s| ==> InOrder(s[i], s[j], ascending)
  }

  /**
   * One step of the sort: x placed before the first element it is in order
   * with. That the result is sorted and a permutation is InsertSorted.
   */
  function Insert(x: KeyInfo, s: seq<KeyInfo>, ascending: bool): (r: seq<KeyInfo>)
    ensures |r| == |s| + 1
  {
    if s == [] || InOrder(x, s[0], ascending) then [x] + s
    else [s[0]] + Insert(x, s[1..], ascending)
  }

  /** Insert into a sorted list keeps it sorted and adds exactly x. */
  lemma {:induction false} InsertSorted(x: KeyInfo, s: seq<KeyInfo>, ascending: bool)
    requires SortedBy(s, ascending)
    ensures SortedBy(Insert(x, s, ascending), ascending)
    ensures multiset(Insert(x, s, ascending)) == multiset(s) + multiset{x}
    ensures Insert(x, s, ascending)[0] == x || (s != [] && Insert(x, s, ascending)[0] == s[0])
  {
    if s == [] || InOrder(x, s[0], ascending) {
      ConsSorted(x, s, ascending);
    } else {
      var t := Insert(x, s[1..], ascending);
      InsertSorted(x, s[1..], ascending);
      assert s == [s[0]] + s[1..];
      ConsSorted(s[0], t, ascending);
    }
  }

  /** A sorted list stays sorted with an element in front that is in order with its head. */
  lemma ConsSorted(a: KeyInfo, t: seq<KeyInfo>, ascending: bool)
    requires SortedBy(t, ascending)
    requires t != [] ==> InOrder(a, t[0], ascending)
    ensures SortedBy([a] + t, ascending)
  {
    var r := [a] + t;
    forall i, j | 0 <= i < j < |r| ensures InOrder(r[i], r[j], ascending) {
      if i > 0 {
        assert r[i] == t[i - 1] && r[j] == t[j - 1];
      } else {
        assert r[j] == t[j - 1];
      }
    }
  }

  /**
   * The order sort.Slice leaves: sorted by CreatedAt and a permutation of the
   * input. (sort.Slice is not stable; records with equal CreatedAt may come
   * out in any order, and this contract does not fix one.)
   */
  function SortByCreated(s: seq<KeyInfo>, ascending: bool): (r: seq<KeyInfo>)
    ensures SortedBy(r, ascending)
    ensures multiset(r) == multiset(s)
  {
    if s == [] then []
    else
      var t := SortByCreated(s[1..], ascending);
      InsertSorted(s[0], t, ascending);
      assert s == [s[0]] + s[1..];
      Insert(s[0], t, ascending)
  }

  // ---------------------------------------------------------------------------
  // Listing and reloading

  /** `list` holds every record of `m` exactly once, and nothing else. */
  ghost predicate ListsExactly(list: seq<KeyInfo>, m: map<string, KeyInfo>) {
    && (forall x :: x in list ==> x.key in m && m[x.key] == x)
    && (forall k :: k in m ==> m[k] in list)
    && (forall x :: multiset(list)[x] <= 1)
  }

  lemma ListsExactlyPermuted(a: seq<KeyInfo>, b: seq<KeyInfo>, m: map<string, KeyInfo>)
    requires ListsExactly(a, m)
    requires multiset(a) == multiset(b)
    ensures ListsExactly(b, m)
  {
    forall x | x in b ensures x.key in m && m[x.key] == x {
      assert x in multiset(b);
    }
    forall k | k in m ensures m[k] in b {
      assert m[k] in multiset(a);
    }
  }

  /** Load's loop: the records in file order, a later record overwriting an earlier one with the same key. */
  function Index(list: seq<KeyInfo>): (m: map<string, KeyInfo>)
    ensures WellKeyed(m)
    ensures forall x :: x in list ==> x.key in m
    ensures forall k :: k in m ==> m[k] in list
  {
    if list == [] then map[]
    else
      var last := list[|list| - 1];
      var front := list[..|list| - 1];
      assert list == front + [last];
      Index(front)[last.key := last]
  }

  /** The record Index keeps for a key is the last one in the list that has it. */
  lemma {:induction false} IndexKeepsLast(list: seq<KeyInfo>, i: nat)
    requires i < |list|
    requires forall j :: i < j < |list| ==> list[j].key != list[i].key
    ensures list[i].key in Index(list) && Index(list)[list[i].key] == list[i]
  {
    if i < |list| - 1 {
      var front := list[..|list| - 1];
      IndexKeepsLast(front, i);
    }
  }

  lemma RepeatCountsTwice(s: seq<KeyInfo>, i: nat, j: nat)
    requires i < j < |s| && s[i] == s[j]
    ensures multiset(s)[s[i]] >= 2
  {
    assert s == s[..j] + s[j..];
    assert s[i] in s[..j];
    assert s[j..][0] == s[j];
  }

  /**
   * Reloading a flushed registry gives the same map back: Index over any
   * list that holds every record exactly once is the registry itself.
   */
  lemma {:induction false} ReloadReproducesRegistry(list: seq<KeyInfo>, m: map<string, KeyInfo>)
    requires WellKeyed(m)
    requires ListsExactly(list, m)
    ensures Index(list) == m
  {
    forall k | k in m ensures k in Index(list) && Index(list)[k] == m[k] {
      var i :| 0 <= i < |list| && list[i] == m[k];
      forall j | i < j < |list| ensures list[j].key != list[i].key {
        if list[j].key == list[i].key {
          assert list[j] in list;
          RepeatCountsTwice(list, i, j);
          assert false;
        }
      }
      IndexKeepsLast(list, i);
    }
    assert Index(list).Keys == m.Keys;
  }

  // ---------------------------------------------------------------------------
  // What one Generate batch is

  /** The keys of a list of records, in order (Generate's newKeys beside out). */
  function KeysOf(list: seq<KeyInfo>): (ks: seq<string>)
    ensures |ks| == |list|
    ensures forall j :: 0 <= j < |list| ==> ks[j] == list[j].key
  {
    if list == [] then [] else KeysOf(list[..|list| - 1]) + [list[|list| - 1].key]
  }

  /**
   * A batch Generate hands out: pairwise distinct keys, none already in the
   * registry `before`, each of the requested length over the alphabet,
   * carrying the comment and the clock reading of its position.
   */
  ghost predicate FreshBatch(out: seq<KeyInfo>, before: map<string, KeyInfo>, comment: string,
                             clock: nat -> int, length: nat)
  {
    && (forall a, b :: 0 <= a < b < |out| ==> out[a].key != out[b].key)
    && (forall j :: 0 <= j < |out| ==>
          out[j].key !in before && out[j].comment == comment && out[j].createdAt == clock(j) &&
          |out[j].key| == length && Helper.OverAlphabet(out[j].key))
  }

  /** `after` is `before` with exactly the fresh batch `out` added. */
  ghost predicate Extends(after: map<string, KeyInfo>, before: map<string, KeyInfo>, out: seq<KeyInfo>,
                          comment: string, clock: nat -> int, length: nat)
  {
    WellKeyed(after) && after == before + Index(out) && FreshBatch(out, before, comment, clock, length)
  }

  // ---------------------------------------------------------------------------
  // The attempts of one Generate call

  /**
   * The a-th call of RandKey in a Generate call. Every call that returns a
   * key takes `length` draws and a failing one ends Generate, so attempt a
   * reads the draws from a * length on.
   */
  ghost function Candidate(length: nat, draws: nat -> Helper.Draw, a: nat): Option<string> {
    Helper.KeyFrom(length, draws, Offset(a, length))
  }

  /** Every attempt's key, as one function of the attempt. */
  ghost function Cands(length: nat, draws: nat -> Helper.Draw): nat -> Option<string> {
    (a: nat) => Candidate(length, draws, a)
  }

  /** Where the draws of attempt a start: a * length, counted attempt by attempt. */
  function Offset(a: nat, length: nat): nat {
    if a == 0 then 0 else Offset(a - 1, length) + length
  }

  /** The keys a sequence holds. */
  function SetOf(s: seq<string>): set<string> {
    set t | t in s
  }

  /** An attempt Generate rejects: its key is already in the registry or in the batch so far. */
  ghost predicate Taken(c: Option<string>, keys: map<string, KeyInfo>, batch: seq<string>) {
    c.Some? && (c.value in keys || c.value in batch)
  }

  /** Attempts first .. first + m - 1 draw m pairwise distinct keys, none of them in `taken`. */
  ghost predicate FreshCands(cand: nat -> Option<string>, taken: set<string>, first: nat, m: nat) {
    && (forall a :: first <= a < first + m ==> cand(a).Some? && cand(a).value !in taken)
    && (forall a, b :: first <= a < b < first + m ==> cand(a) != cand(b))
  }

  /** The first n attempts draw n pairwise distinct keys, none of them in `before`. */
  ghost predicate FreshStream(before: map<string, KeyInfo>, n: nat, length: nat, draws: nat -> Helper.Draw) {
    FreshCands(Cands(length, draws), before.Keys, 0, n)
  }

  /**
   * The attempt loop for one key, from its k-th attempt on: attempt
   * `first + k` fails, is accepted when no key in `taken` equals it, or is
   * rejected, and the MaxAttemptsPerKey-th rejection in a row is a
   * collision. The second component is the attempt after the last one made.
   */
  ghost function Pick(cand: nat -> Option<string>, taken: set<string>, first: nat, k: nat)
    : (Result<string, KeyError>, nat)
    requires k < MaxAttemptsPerKey
    decreases MaxAttemptsPerKey - k
  {
    match cand(first + k)
    case None => (Err(RandFailed), first + k + 1)
    case Some(c) =>
      if c !in taken then (Ok(c), first + k + 1)
      else if k + 1 == MaxAttemptsPerKey then (Err(Collision), first + k + 1)
      else Pick(cand, taken, first, k + 1)
  }

  /** What Generate's key loop does: the keys it accepts in order, why it stopped early if it did, and the attempts made. */
  datatype Run = Run(drawn: seq<string>, stop: Option<KeyError>, attempts: nat)

  /**
   * The key loop for m more keys from attempt `first` on, the registry and
   * the batch so far holding `taken`: each accepted key joins `taken`, and
   * the first attempt loop that does not accept a key ends the run.
   */
  ghost function KeyRun(cand: nat -> Option<string>, taken: set<string>, m: nat, first: nat): Run
    decreases m
  {
    if m == 0 then Run([], None, first)
    else
      var (r, next) := Pick(cand, taken, first, 0);
      if r.Err? then Run([], Some(r.error), next)
      else
        var rest := KeyRun(cand, taken + {r.value}, m - 1, next);
        Run([r.value] + rest.drawn, rest.stop, rest.attempts)
  }

  /**
   * The attempt loop for one key, about to make its attempt-th attempt,
   * will end as `goal` says; once MaxAttemptsPerKey attempts are made, it
   * ends in a collision.
   */
  ghost predicate Pending(cand: nat -> Option<string>, taken: set<string>, first: nat, attempt: nat,
                          goal: (Result<string, KeyError>, nat))
  {
    && attempt <= MaxAttemptsPerKey
    && (attempt < MaxAttemptsPerKey ==> goal == Pick(cand, taken, first, attempt))
    && (attempt == MaxAttemptsPerKey ==> goal == (Err(Collision), first + MaxAttemptsPerKey))
  }

  /** One attempt of that loop: it fails, accepts, or leaves the rest to the next attempt. */
  lemma PickStep(cand: nat -> Option<string>, taken: set<string>, first: nat, k: nat)
    requires k < MaxAttemptsPerKey
    ensures cand(first + k).None? ==>
              Pick(cand, taken, first, k) == (Err(RandFailed), first + k + 1)
    ensures cand(first + k).Some? && cand(first + k).value !in taken ==>
              Pick(cand, taken, first, k) == (Ok(cand(first + k).value), first + k + 1)
    ensures cand(first + k).Some? && cand(first + k).value in taken ==>
              Pending(cand, taken, first, k + 1, Pick(cand, taken, first, k))
  {
  }

  /** A run that follows the keys `done` accepted already. */
  function Resume(done: seq<string>, rest: Run): Run {
    Run(done + rest.drawn, rest.stop, rest.attempts)
  }

  /**
   * What one key's attempt loop means: every attempt it passes over drew a
   * taken key; the last one drew the accepted key, failed, or was the
   * MaxAttemptsPerKey-th taken key in a row.
   */
  lemma {:induction false} PickMeans(cand: nat -> Option<string>, taken: set<string>, first: nat, k: nat)
    requires k < MaxAttemptsPerKey
    ensures var (r, next) := Pick(cand, taken, first, k);
            && first + k < next <= first + MaxAttemptsPerKey
            && (forall a :: first + k <= a < next - 1 ==>
                  cand(a).Some? && cand(a).value in taken)
            && (r.Ok? ==> cand(next - 1) == Some(r.value) && r.value !in taken)
            && (r == Err(RandFailed) ==> cand(next - 1).None?)
            && (r == Err(Collision) ==>
                  next == first + MaxAttemptsPerKey &&
                  cand(next - 1).Some? && cand(next - 1).value in taken)
            && (r.Err? ==> r.error in {RandFailed, Collision})
    decreases MaxAttemptsPerKey - k
  {
    var c := cand(first + k);
    if c.Some? && c.value in taken && k + 1 < MaxAttemptsPerKey {
      PickMeans(cand, taken, first, k + 1);
    }
  }

  /**
   * When the next m attempts draw pairwise distinct keys outside `taken`,
   * the run accepts each of them at once, in order.
   */
  lemma {:induction false} FreshRun(cand: nat -> Option<string>, taken: set<string>, m: nat, first: nat)
    requires FreshCands(cand, taken, first, m)
    ensures var run := KeyRun(cand, taken, m, first);
            && run.stop.None? && run.attempts == first + m && |run.drawn| == m
            && forall i :: 0 <= i < m ==> cand(first + i) == Some(run.drawn[i])
    decreases m
  {
    if m > 0 {
      var c := cand(first).value;
      assert Pick(cand, taken, first, 0) == (Ok(c), first + 1);
      forall a | first + 1 <= a < first + m
        ensures cand(a).Some? && cand(a).value !in taken + {c}
      {
        assert cand(first) != cand(a);
      }
      FreshRun(cand, taken + {c}, m - 1, first + 1);
      var rest := KeyRun(cand, taken + {c}, m - 1, first + 1);
      forall i | 0 <= i < m
        ensures cand(first + i) == Some(([c] + rest.drawn)[i])
      {
        if i > 0 {
          assert cand((first + 1) + (i - 1)) == Some(rest.drawn[i - 1]);
        }
      }
    }
  }

  /** When the first n candidates are fresh and distinct, the run accepts them all, in order, as the batch's keys. */
  lemma FreshKeys(before: map<string, KeyInfo>, n: nat, length: nat, draws: nat -> Helper.Draw, out: seq<KeyInfo>)
    requires FreshStream(before, n, length, draws)
    requires KeysOf(out) == KeyRun(Cands(length, draws), before.Keys, n, 0).drawn
    ensures KeyRun(Cands(length, draws), before.Keys, n, 0).stop.None?
    ensures |out| == n && forall i :: 0 <= i < n ==> Candidate(length, draws, i) == Some(out[i].key)
  {
    FreshRun(Cands(length, draws), before.Keys, n, 0);
    forall i | 0 <= i < n
      ensures Candidate(length, draws, i) == Some(out[i].key)
    {
      FreshKeyAt(before, n, length, draws, out, i);
    }
  }

  /** FreshKeys at one position: the batch's i-th key is the candidate of attempt i. */
  lemma FreshKeyAt(before: map<string, KeyInfo>, n: nat, length: nat, draws: nat -> Helper.Draw, out: seq<KeyInfo>,
                   i: nat)
    requires FreshStream(before, n, length, draws)
    requires KeysOf(out) == KeyRun(Cands(length, draws), before.Keys, n, 0).drawn
    requires i < n
    ensures i < |out| && Candidate(length, draws, i) == Some(out[i].key)
  {
    FreshRun(Cands(length, draws), before.Keys, n, 0);
    var drawn := KeyRun(Cands(length, draws), before.Keys, n, 0).drawn;
    assert Cands(length, draws)(0 + i) == Some(drawn[i]);
    assert Cands(length, draws)(i) == Candidate(length, draws, i);
    assert KeysOf(out)[i] == out[i].key;
  }

  /** One more key's attempt loop in a run that ends the run. */
  lemma RunStops(cand: nat -> Option<string>, start: set<string>, taken: set<string>, done: seq<string>,
                 n: nat, m: nat, first: nat, r: Result<string, KeyError>, next: nat)
    requires 0 < m
    requires KeyRun(cand, start, n, 0) == Resume(done, KeyRun(cand, taken, m, first))
    requires (r, next) == Pick(cand, taken, first, 0)
    requires r.Err?
    ensures KeyRun(cand, start, n, 0) == Run(done, Some(r.error), next)
  {
    assert done + [] == done;
  }

  /** A run whose first attempt loop accepts a key: that key, then the run for one key fewer. */
  lemma RunAccepts(cand: nat -> Option<string>, taken: set<string>, m: nat, first: nat,
                   r: Result<string, KeyError>, next: nat, m': nat)
    requires m == m' + 1 && (r, next) == Pick(cand, taken, first, 0) && r.Ok?
    ensures KeyRun(cand, taken, m, first) == Resume([r.value], KeyRun(cand, taken + {r.value}, m', next))
  {
  }

  /** One more key's attempt loop in a run that accepts a key, which joins the run and the taken keys. */
  lemma RunGrows(cand: nat -> Option<string>, start: set<string>, taken: set<string>, done: seq<string>,
                 n: nat, m: nat, first: nat, r: Result<string, KeyError>, next: nat, m': nat)
    requires m == m' + 1
    requires KeyRun(cand, start, n, 0) == Resume(done, KeyRun(cand, taken, m, first))
    requires (r, next) == Pick(cand, taken, first, 0)
    requires r.Ok?
    ensures KeyRun(cand, start, n, 0) == Resume(done + [r.value], KeyRun(cand, taken + {r.value}, m', next))
  {
    RunAccepts(cand, taken, m, first, r, next, m');
    var rest := KeyRun(cand, taken + {r.value}, m', next);
    assert done + ([r.value] + rest.drawn) == (done + [r.value]) + rest.drawn;
  }

  /** What one key's attempt loop means, said of the registry and the batch so far. */
  lemma PickTaken(length: nat, draws: nat -> Helper.Draw, keys: map<string, KeyInfo>, batch: seq<string>, first: nat,
                  r: Result<string, KeyError>, next: nat)
    requires (r, next) == Pick(Cands(length, draws), keys.Keys + SetOf(batch), first, 0)
    ensures first < next <= first + MaxAttemptsPerKey
    ensures forall a :: first <= a < next - 1 ==> Taken(Candidate(length, draws, a), keys, batch)
    ensures r.Ok? ==> Candidate(length, draws, next - 1) == Some(r.value) && r.value !in keys && r.value !in batch
    ensures r == Err(RandFailed) ==> Candidate(length, draws, next - 1).None?
    ensures r == Err(Collision) ==>
              next == first + MaxAttemptsPerKey && Taken(Candidate(length, draws, next - 1), keys, batch)
    ensures r.Err? ==> r.error in {RandFailed, Collision}
  {
    PickMeans(Cands(length, draws), keys.Keys + SetOf(batch), first, 0);
    forall a | first <= a < next - 1
      ensures Taken(Candidate(length, draws, a), keys, batch)
    {
      assert Cands(length, draws)(a) == Candidate(length, draws, a);
    }
  }

  /** Where Generate's key loop stands after the batch `out` and `attempts` attempts. */
  ghost predicate Progress(keys: map<string, KeyInfo>, before: map<string, KeyInfo>, out: seq<KeyInfo>,
                           newKeys: seq<string>, attempts: nat, n: nat, comment: string, clock: nat -> int,
                           length: nat, draws: nat -> Helper.Draw)
  {
    && |out| <= n
    && newKeys == KeysOf(out)
    && Extends(keys, before, out, comment, clock, length)
    && KeyRun(Cands(length, draws), before.Keys, n, 0) == Resume(newKeys, KeyRun(Cands(length, draws), keys.Keys, n - |out|, attempts))
  }

  /** Progress after one more accepted key: the key joins the batch and the registry. */
  lemma ProgressGrows(keys: map<string, KeyInfo>, keys': map<string, KeyInfo>, before: map<string, KeyInfo>,
                      out: seq<KeyInfo>, newKeys: seq<string>, attempts: nat,
                      out': seq<KeyInfo>, newKeys': seq<string>, attempts': nat,
                      n: nat, comment: string, clock: nat -> int, length: nat, draws: nat -> Helper.Draw)
    requires Progress(keys, before, out, newKeys, attempts, n, comment, clock, length, draws)
    requires |out| < n && |out'| == |out| + 1
    requires var (p, next) := Pick(Cands(length, draws), keys.Keys, attempts, 0);
             && attempts' == next && p.Ok?
             && newKeys' == newKeys + [p.value] && keys'.Keys == keys.Keys + {p.value}
    requires Extends(keys', before, out', comment, clock, length) && newKeys' == KeysOf(out')
    ensures Progress(keys', before, out', newKeys', attempts', n, comment, clock, length, draws)
  {
    var p := Pick(Cands(length, draws), keys.Keys, attempts, 0).0;
    RunGrows(Cands(length, draws), before.Keys, keys.Keys, newKeys, n, n - |out|, attempts, p, attempts', n - |out'|);
  }

  /** Progress whose next attempt loop fails: the run stops there with that error. */
  lemma ProgressStops(keys: map<string, KeyInfo>, before: map<string, KeyInfo>,
                      out: seq<KeyInfo>, newKeys: seq<string>, attempts: nat, e: KeyError, attempts': nat,
                      n: nat, comment: string, clock: nat -> int, length: nat, draws: nat -> Helper.Draw)
    requires Progress(keys, before, out, newKeys, attempts, n, comment, clock, length, draws)
    requires |out| < n
    requires (Err(e), attempts') == Pick(Cands(length, draws), keys.Keys, attempts, 0)
    ensures KeyRun(Cands(length, draws), before.Keys, n, 0) == Run(newKeys, Some(e), attempts')
  {
    RunStops(Cands(length, draws), before.Keys, keys.Keys, newKeys, n, n - |out|, attempts, Err(e), attempts');
  }

  lemma FreshBatchGrows(out: seq<KeyInfo>, ki: KeyInfo, before: map<string, KeyInfo>, comment: string,
                        clock: nat -> int, length: nat)
    requires FreshBatch(out, before, comment, clock, length)
    requires ki.key !in before && forall j :: 0 <= j < |out| ==> out[j].key != ki.key
    requires ki.comment == comment && ki.createdAt == clock(|out|)
    requires |ki.key| == length && Helper.OverAlphabet(ki.key)
    ensures FreshBatch(out + [ki], before, comment, clock, length)
  {
  }

  /** Index of a list with one more record: the old index with that record filed under its key. */
  lemma IndexSnoc(list: seq<KeyInfo>, x: KeyInfo, before: map<string, KeyInfo>)
    ensures Index(list + [x]) == Index(list)[x.key := x]
    ensures (before + Index(list))[x.key := x] == before + Index(list + [x])
  {
    assert (list + [x])[..|list|] == list;
  }

  lemma NotInIndex(list: seq<KeyInfo>, k: string)
    requires k !in Index(list)
    ensures forall j :: 0 <= j < |list| ==> list[j].key != k
  {
    forall j | 0 <= j < |list| ensures list[j].key != k {
      assert list[j] in list;
    }
  }

  /** The keys Index files are exactly the keys of the list. */
  lemma IndexKeySet(list: seq<KeyInfo>)
    ensures Index(list).Keys == set t | 0 <= t < |list| :: list[t].key
  {
    forall k | k in Index(list) ensures exists t :: 0 <= t < |list| && list[t].key == k {
      var t :| 0 <= t < |list| && list[t] == Index(list)[k];
    }
    forall t | 0 <= t < |list| ensures list[t].key in Index(list) {
      assert list[t] in list;
    }
  }

  /** After a batch, deleting its keys one by one gives back exactly the registry before it. */
  lemma CanRollback(after: map<string, KeyInfo>, before: map<string, KeyInfo>, out: seq<KeyInfo>,
                    newKeys: seq<string>, comment: string, clock: nat -> int, length: nat)
    requires Extends(after, before, out, comment, clock, length)
    requires newKeys == KeysOf(out)
    ensures forall t :: 0 <= t < |newKeys| ==> newKeys[t] !in before
    ensures forall a, b :: 0 <= a < b < |newKeys| ==> newKeys[a] != newKeys[b]
    ensures after.Keys == before.Keys + (set t | 0 <= t < |newKeys| :: newKeys[t])
    ensures forall k :: k in before ==> k in after && after[k] == before[k]
  {
    IndexKeySet(out);
    assert (set t | 0 <= t < |out| :: out[t].key) == set t | 0 <= t < |newKeys| :: newKeys[t];
  }

  lemma KeysOfSnoc(out: seq<KeyInfo>, ki: KeyInfo)
    ensures KeysOf(out + [ki]) == KeysOf(out) + [ki.key]
  {
    assert (out + [ki])[..|out|] == out;
  }

  /** Filing a record under its key adds exactly that key to the registry's keys. */
  lemma UpdateKeys(m: map<string, KeyInfo>, ki: KeyInfo)
    ensures m[ki.key := ki].Keys == m.Keys + {ki.key}
  {
  }

  /** A registry extended by a fresh batch, with one more fresh record filed under its key. */
  lemma ExtendsGrows(after: map<string, KeyInfo>, before: map<string, KeyInfo>, out: seq<KeyInfo>, ki: KeyInfo,
                     comment: string, clock: nat -> int, length: nat)
    requires Extends(after, before, out, comment, clock, length)
    requires ki.key !in after
    requires ki.comment == comment && ki.createdAt == clock(|out|)
    requires |ki.key| == length && Helper.OverAlphabet(ki.key)
    ensures Extends(after[ki.key := ki], before, out + [ki], comment, clock, length)
  {
    NotInIndex(out, ki.key);
    FreshBatchGrows(out, ki, before, comment, clock, length);
    IndexSnoc(out, ki, before);
  }

  /** The keys of a batch Generate has inserted are in the registry already. */
  lemma BatchTaken(after: map<string, KeyInfo>, before: map<string, KeyInfo>, out: seq<KeyInfo>,
                   newKeys: seq<string>, comment: string, clock: nat -> int, length: nat)
    requires Extends(after, before, out, comment, clock, length)
    requires newKeys == KeysOf(out)
    ensures after.Keys + SetOf(newKeys) == after.Keys
  {
    CanRollback(after, before, out, newKeys, comment, clock, length);
  }

  // ---------------------------------------------------------------------------

  class KeysService {
    /** The registry (KeysService.keys). */
    var keys: map<string, KeyInfo>
    /** The canonical keys.json on disk. */
    var file: KeysFile

    ghost predicate Valid()
      reads this
    {
      WellKeyed(keys)
    }

    /** NewKeysService: an empty registry over whatever file is on disk. */
    constructor (onDisk: KeysFile)
      ensures Valid() && keys == map[] && file == onDisk
    {
      keys := map[];
      file := onDisk;
    }

    /** The `range s.keys` loop of flushLocked and List: every record once, in map order. */
    method Records() returns (list: seq<KeyInfo>)
      requires Valid()
      ensures ListsExactly(list, keys)
    {
      list := [];
      var rest := keys.Keys;
      while rest != {}
        invariant rest <= keys.Keys
        invariant forall x :: x in list ==> x.key in keys && keys[x.key] == x && x.key !in rest
        invariant forall k :: k in keys && k !in rest ==> keys[k] in list
        invariant forall x :: multiset(list)[x] <= 1
        decreases rest
      {
        var k :| k in rest;
        list := list + [keys[k]];
        rest := rest - {k};
      }
    }

    /**
     * flushLocked: every record, oldest first, replaces keys.json. `writes`
     * says whether MkdirAll, the temporary write and the rename all succeed;
     * if any fails the canonical file is untouched.
     */
    method FlushLocked(writes: bool) returns (ok: bool)
      requires Valid()
      modifies this`file
      ensures ok == writes
      ensures ok ==> file.Stored? && ListsExactly(file.list, keys) && SortedBy(file.list, true)
      ensures !ok ==> file == old(file)
    {
      var list := Records();
      var sorted := SortByCreated(list, true);
      ListsExactlyPermuted(list, sorted, keys);
      if !writes {
        return false;
      }
      file := Stored(sorted);
      return true;
    }

    /**
     * Load: a missing file is created by a flush of the current map; an
     * unreadable or undecodable one is an error that changes nothing; a
     * decoded list replaces the map, later duplicates winning.
     */
    method Load(flushWrites: bool) returns (r: Result<(), KeyError>)
      requires Valid()
      modifies this
      ensures Valid()
      ensures old(file).Missing? ==>
                keys == old(keys) && (r.Ok? <==> flushWrites) &&
                (r.Ok? ==> file.Stored? && ListsExactly(file.list, keys)) &&
                (r.Err? ==> r.error == FlushFailed && file == old(file))
      ensures old(file).Unreadable? ==> r == Err(ReadFailed) && keys == old(keys) && file == old(file)
      ensures old(file).Malformed? ==> r == Err(DecodeFailed) && keys == old(keys) && file == old(file)
      ensures old(file).Stored? ==> r == Ok(()) && keys == Index(old(file).list) && file == old(file)
    {
      match file
      case Missing =>
        var ok := FlushLocked(flushWrites);
        return if ok then Ok(()) else Err(FlushFailed);
      case Unreadable =>
        return Err(ReadFailed);
      case Malformed =>
        return Err(DecodeFailed);
      case Stored(list) =>
        Rebuild(list);
        return Ok(());
    }

    /** The tail of Load: `s.keys = make(...)`, then one insertion per decoded record. */
    method Rebuild(list: seq<KeyInfo>)
      modifies this`keys
      ensures Valid() && keys == Index(list)
    {
      keys := map[];
      for i := 0 to |list|
        invariant keys == Index(list[..i])
      {
        assert list[..i + 1][..i] == list[..i];
        keys := keys[list[i].key := list[i]];
      }
      assert list[..|list|] == list;
    }

    /**
     * Generate: n fresh keys of `length` characters with the given comment.
     * Each key is retried until it is new to the registry and to the batch,
     * at most MaxAttemptsPerKey times. The batch is inserted as it is made
     * and flushed once; a failed flush deletes exactly the batch again. A
     * random-source error or exhausted attempts return at once and leave the
     * keys inserted so far in the map, unflushed. `clock(i)` is time.Now()
     * for the i-th key; `draws` is the random stream; `attempts` counts the
     * RandKey calls made. KeyRun says which keys the loop accepts and where
     * it stops.
     */
    method Generate(n: nat, length: nat, comment: string, clock: nat -> int,
                    draws: nat -> Helper.Draw, flushWrites: bool)
      returns (r: Result<seq<KeyInfo>, KeyError>, ghost attempts: nat)
      requires Valid()
      modifies this
      ensures Valid()
      ensures var run := KeyRun(Cands(length, draws), old(keys).Keys, n, 0);
              && attempts == run.attempts
              && (r.Ok? <==> run.stop.None? && flushWrites)
              && (r == Err(FlushFailed) <==> run.stop.None? && !flushWrites)
              && (run.stop.Some? ==> r == Err(run.stop.value))
              && (r.Ok? ==> KeysOf(r.value) == run.drawn)
      ensures r.Ok? ==> |r.value| == n && FreshBatch(r.value, old(keys), comment, clock, length)
      ensures r.Ok? ==> keys == old(keys) + Index(r.value)
      ensures r.Ok? ==> file.Stored? && ListsExactly(file.list, keys) && SortedBy(file.list, true)
      ensures r.Err? ==> r.error in {FlushFailed, RandFailed, Collision}
      ensures r == Err(FlushFailed) ==> !flushWrites && keys == old(keys) && file == old(file)
      ensures r.Err? && r.error != FlushFailed ==>
                file == old(file) &&
                exists batch :: FreshBatch(batch, old(keys), comment, clock, length) &&
                                keys == old(keys) + Index(batch) &&
                                KeysOf(batch) == KeyRun(Cands(length, draws), old(keys).Keys, n, 0).drawn
      ensures flushWrites && FreshStream(old(keys), n, length, draws) ==>
                r.Ok? && forall i :: 0 <= i < n ==> Candidate(length, draws, i) == Some(r.value[i].key)
    {
      var res, out, newKeys, tries := MakeBatch(n, length, comment, clock, draws);
      attempts := tries;
      if FreshStream(old(keys), n, length, draws) {
        FreshKeys(old(keys), n, length, draws, out);
      }
      if res.Err? {
        assert FreshBatch(out, old(keys), comment, clock, length) && keys == old(keys) + Index(out) &&
               KeysOf(out) == KeyRun(Cands(length, draws), old(keys).Keys, n, 0).drawn;
        return Err(res.error), attempts;
      }
      var flushed := Commit(out, newKeys, old(keys), comment, clock, length, flushWrites);
      if !flushed {
        return Err(FlushFailed), attempts;
      }
      return Ok(out), attempts;
    }

    /**
     * The key loop of Generate: up to n fresh keys, each inserted into the
     * registry as soon as it is accepted. On an error the keys inserted so
     * far stay. The keys, the error and the attempts are KeyRun's.
     */
    method MakeBatch(n: nat, length: nat, comment: string, clock: nat -> int, draws: nat -> Helper.Draw)
      returns (r: Result<(), KeyError>, out: seq<KeyInfo>, newKeys: seq<string>, attempts: nat)
      requires Valid()
      modifies this`keys
      ensures Extends(keys, old(keys), out, comment, clock, length)
      ensures newKeys == KeysOf(out)
      ensures r.Ok? ==> |out| == n
      ensures r.Err? ==> r.error in {RandFailed, Collision}
      ensures KeyRun(Cands(length, draws), old(keys).Keys, n, 0) ==
                Run(newKeys, if r.Ok? then None else Some(r.error), attempts)
    {
      out, newKeys := [], [];
      attempts := 0;
      assert Resume([], KeyRun(Cands(length, draws), keys.Keys, n, 0)) == KeyRun(Cands(length, draws), keys.Keys, n, 0);
      for i := 0 to n
        invariant |out| == i
        invariant Progress(keys, old(keys), out, newKeys, attempts, n, comment, clock, length, draws)
      {
        ghost var keys0, out0, done, first := keys, out, newKeys, attempts;
        r, out, newKeys, attempts := NextKey(out, newKeys, attempts, old(keys), comment, clock, length, draws);
        if r.Err? {
          ProgressStops(keys0, old(keys), out0, done, first, r.error, attempts, n, comment, clock, length, draws);
          return;
        }
        ProgressGrows(keys0, keys, old(keys), out0, done, first, out, newKeys, attempts, n, comment, clock, length, draws);
      }
      assert newKeys + [] == newKeys;
      return Ok(()), out, newKeys, attempts;
    }

    /**
     * One turn of Generate's key loop: the attempt loop for the next key
     * (Pick over the registry, which holds the batch so far), then
     * `s.keys[k] = ki` and the appends to newKeys and out.
     */
    method NextKey(out: seq<KeyInfo>, newKeys: seq<string>, attempts: nat, ghost before: map<string, KeyInfo>,
                   comment: string, clock: nat -> int, length: nat, draws: nat -> Helper.Draw)
      returns (r: Result<(), KeyError>, out': seq<KeyInfo>, newKeys': seq<string>, attempts': nat)
      requires Extends(keys, before, out, comment, clock, length)
      requires newKeys == KeysOf(out)
      modifies this`keys
      ensures attempts < attempts'
      ensures var (p, next) := Pick(Cands(length, draws), old(keys).Keys, attempts, 0);
              && attempts' == next
              && (r.Ok? <==> p.Ok?)
              && (r.Err? ==> r.error == p.error && r.error in {RandFailed, Collision})
              && (p.Ok? ==> newKeys' == newKeys + [p.value] && keys.Keys == old(keys).Keys + {p.value})
      ensures r.Ok? ==> |out'| == |out| + 1 && Extends(keys, before, out', comment, clock, length) &&
                        newKeys' == KeysOf(out')
      ensures r.Err? ==> out' == out && newKeys' == newKeys && keys == old(keys)
    {
      BatchTaken(keys, before, out, newKeys, comment, clock, length);
      var res;
      res, attempts' := DrawFreshKey(length, draws, attempts, newKeys);
      if res.Err? {
        return Err(res.error), out, newKeys, attempts';
      }
      out', newKeys' := AddToBatch(out, newKeys, KeyInfo(res.value, clock(|out|), comment), before, comment, clock, length);
      r := Ok(());
    }

    /**
     * The end of Generate: one flush of the whole registry; if it fails,
     * the batch is deleted again so the registry is what it was before.
     */
    method Commit(out: seq<KeyInfo>, newKeys: seq<string>, ghost before: map<string, KeyInfo>,
                  ghost comment: string, ghost clock: nat -> int, ghost length: nat, flushWrites: bool)
      returns (ok: bool)
      requires Extends(keys, before, out, comment, clock, length)
      requires newKeys == KeysOf(out)
      modifies this
      ensures ok == flushWrites
      ensures ok ==> keys == old(keys) && file.Stored? && ListsExactly(file.list, keys) && SortedBy(file.list, true)
      ensures !ok ==> keys == before && file == old(file)
    {
      CanRollback(keys, before, out, newKeys, comment, clock, length);
      ok := FlushLocked(flushWrites);
      if !ok {
        Rollback(newKeys, before);
      }
    }

    /**
     * One accepted key of Generate: `s.keys[k] = ki`, then the appends to
     * newKeys and out, extending the batch by one.
     */
    method AddToBatch(out: seq<KeyInfo>, newKeys: seq<string>, ki: KeyInfo, ghost before: map<string, KeyInfo>,
                      ghost comment: string, ghost clock: nat -> int, ghost length: nat)
      returns (out': seq<KeyInfo>, newKeys': seq<string>)
      requires Extends(keys, before, out, comment, clock, length) && newKeys == KeysOf(out)
      requires ki.key !in keys && ki.key !in KeysOf(out)
      requires ki.comment == comment && ki.createdAt == clock(|out|)
      requires |ki.key| == length && Helper.OverAlphabet(ki.key)
      modifies this`keys
      ensures out' == out + [ki] && newKeys' == newKeys + [ki.key]
      ensures Extends(keys, before, out', comment, clock, length) && newKeys' == KeysOf(out')
      ensures keys == old(keys)[ki.key := ki] && keys.Keys == old(keys).Keys + {ki.key}
    {
      ExtendsGrows(keys, before, out, ki, comment, clock, length);
      UpdateKeys(keys, ki);
      keys := keys[ki.key := ki];
      newKeys' := newKeys + [ki.key];
      out' := out + [ki];
      KeysOfSnoc(out, ki);
    }

    /**
     * The attempt loop of Generate for one key, starting at attempt `first`:
     * draw a key, accept it if neither the registry nor the batch so far
     * holds it, else draw again. `next` is the attempt after the last one
     * made; the last one is accepted, failed, or the MaxAttemptsPerKey-th
     * collision in a row.
     */
    method DrawFreshKey(length: nat, draws: nat -> Helper.Draw, first: nat, batch: seq<string>)
      returns (r: Result<string, KeyError>, next: nat)
      ensures first < next <= first + MaxAttemptsPerKey
      ensures forall a :: first <= a < next - 1 ==> Taken(Candidate(length, draws, a), keys, batch)
      ensures r.Ok? ==> Candidate(length, draws, next - 1) == Some(r.value) && r.value !in keys && r.value !in batch
      ensures r.Ok? ==> |r.value| == length && Helper.OverAlphabet(r.value)
      ensures r == Err(RandFailed) ==> Candidate(length, draws, next - 1).None?
      ensures r == Err(Collision) ==>
                next == first + MaxAttemptsPerKey && Taken(Candidate(length, draws, next - 1), keys, batch)
      ensures r.Err? ==> r.error in {RandFailed, Collision}
      ensures (r, next) == Pick(Cands(length, draws), keys.Keys + SetOf(batch), first, 0)
    {
      r, next := AttemptLoop(length, draws, first, batch);
      PickTaken(length, draws, keys, batch, first, r, next);
    }

    /** The loop of DrawFreshKey, which follows Pick attempt by attempt. */
    method AttemptLoop(length: nat, draws: nat -> Helper.Draw, first: nat, batch: seq<string>)
      returns (r: Result<string, KeyError>, next: nat)
      ensures r.Ok? ==> |r.value| == length && Helper.OverAlphabet(r.value)
      ensures (r, next) == Pick(Cands(length, draws), keys.Keys + SetOf(batch), first, 0)
    {
      ghost var taken := keys.Keys + SetOf(batch);
      ghost var goal := Pick(Cands(length, draws), taken, first, 0);
      r, next := Err(Collision), first + MaxAttemptsPerKey;
      var attempt := 0;
      var done := false;
      while attempt < MaxAttemptsPerKey && !done
        invariant attempt <= MaxAttemptsPerKey
        invariant done ==> (r, next) == goal
        invariant done && r.Ok? ==> |r.value| == length && Helper.OverAlphabet(r.value)
        invariant !done ==> (r, next) == (Err(Collision), first + MaxAttemptsPerKey)
        invariant !done ==> Pending(Cands(length, draws), taken, first, attempt, goal)
        decreases MaxAttemptsPerKey - attempt, !done
      {
        var found := Attempt(length, draws, first, attempt, batch, goal);
        if found.Some? {
          r, next, done := found.value, first + attempt + 1, true;
        } else {
          attempt := attempt + 1;
        }
      }
    }

    /**
     * One attempt of that loop: draw the candidate of attempt `first + k`;
     * a failed draw or a key that neither the registry nor the batch holds
     * ends the loop, a taken key leaves the outcome to the next attempt.
     */
    method Attempt(length: nat, draws: nat -> Helper.Draw, first: nat, k: nat, batch: seq<string>,
                   ghost goal: (Result<string, KeyError>, nat))
      returns (found: Option<Result<string, KeyError>>)
      requires k < MaxAttemptsPerKey
      requires Pending(Cands(length, draws), keys.Keys + SetOf(batch), first, k, goal)
      ensures found.Some? ==> (found.value, first + k + 1) == goal
      ensures found.Some? && found.value.Ok? ==> |found.value.value| == length && Helper.OverAlphabet(found.value.value)
      ensures found.None? ==> Pending(Cands(length, draws), keys.Keys + SetOf(batch), first, k + 1, goal)
    {
      var drawn, _ := Helper.RandKey(length, draws, Offset(first + k, length));
      PickStep(Cands(length, draws), keys.Keys + SetOf(batch), first, k);
      if drawn.Err? {
        return Some(Err(RandFailed));
      }
      if drawn.value in keys {
        return None;
      }
      // Generate inserts each accepted key at once, so this scan of the batch never finds it
      var dup := InBatch(batch, drawn.value);
      found := if dup then None else Some(Ok(drawn.value));
    }

    /** The scan of the batch so far for a drawn key. */
    method InBatch(batch: seq<string>, k: string) returns (dup: bool)
      ensures dup <==> k in batch
    {
      dup := false;
      var j := 0;
      while j < |batch|
        invariant 0 <= j <= |batch|
        invariant forall t :: 0 <= t < j ==> batch[t] != k
      {
        if batch[j] == k {
          dup := true;
          break;
        }
        j := j + 1;
      }
    }

    /** The rollback of Generate: delete, one by one, the keys this call added. */
    method Rollback(batch: seq<string>, ghost before: map<string, KeyInfo>)
      requires forall t :: 0 <= t < |batch| ==> batch[t] !in before
      requires forall a, b :: 0 <= a < b < |batch| ==> batch[a] != batch[b]
      requires keys.Keys == before.Keys + (set t | 0 <= t < |batch| :: batch[t])
      requires forall k :: k in before ==> k in keys && keys[k] == before[k]
      modifies this`keys
      ensures keys == before
    {
      for j := 0 to |batch|
        invariant keys.Keys == before.Keys + (set t | j <= t < |batch| :: batch[t])
        invariant forall k :: k in before ==> k in keys && keys[k] == before[k]
      {
        assert (set t | j <= t < |batch| :: batch[t]) == {batch[j]} + (set t | j + 1 <= t < |batch| :: batch[t]);
        keys := keys - {batch[j]};
      }
      assert keys.Keys == before.Keys;
    }

    /** Get: the record of k, if the registry holds k; reading never changes the registry. */
    function Get(k: string): (r: Option<KeyInfo>)
      reads this
      ensures r.Some? <==> k in keys
      ensures r.Some? ==> r.value == keys[k]
      ensures Valid() && r.Some? ==> r.value.key == k
    {
      if k in keys then Some(keys[k]) else None
    }

    /** List: every record exactly once, newest first. */
    method List() returns (list: seq<KeyInfo>)
      requires Valid()
      ensures ListsExactly(list, keys)
      ensures SortedBy(list, false)
    {
      var all := Records();
      list := SortByCreated(all, false);
      ListsExactlyPermuted(all, list, keys);
    }
  }
}
