/**
  The aggregation behind `top_models_by_sales`: which sales count, the
  per-model tally of sales and highest price, and the stable descending
  sort that ranks the models.
 */
module Ranking {
  import opened Results
  import opened PyStr
  import opened FixedWidth

  // ---------------------------------------------------------------------------
  // car_mapping: VIN -> (model id, price)
  // ---------------------------------------------------------------------------

  /** What `car_mapping` keeps for a VIN. */
  datatype CarRef = CarRef(model: int, price: int)

  /**
    One car line's entry: blank lines and lines with fewer than 5 fields add
    nothing; otherwise `int(fields[1])` and `Decimal(fields[2])` must parse.
   */
  function CarEntry(line: string): Result<Option<(string, CarRef)>> {
    if Strip(line) == [] then Ok(None)
    else
      var fs := Fields(line);
      if |fs| < 5 then Ok(None)
      else match ParseInt(fs[1])
        case None => Err(BadNumber)
        case Some(model) =>
          match ParseInt(fs[2])
          case None => Err(BadNumber)
          case Some(price) => Ok(Some((fs[0], CarRef(model, price))))
  }

  /** Each car line's entry, in file order. */
  function CarEntries(ls: seq<string>): (es: seq<Result<Option<(string, CarRef)>>>)
    ensures |es| == |ls|
    ensures forall i :: 0 <= i < |ls| ==> es[i] == CarEntry(ls[i])
  {
    seq(|ls|, i requires 0 <= i < |ls| => CarEntry(ls[i]))
  }

  /** The `car_mapping` loop from `acc` on: a later line for the same VIN overwrites. */
  function CarMappingFrom(es: seq<Result<Option<(string, CarRef)>>>, acc: map<string, CarRef>): Result<map<string, CarRef>>
    decreases |es|
  {
    if es == [] then Ok(acc)
    else match es[0]
      case Err(e) => Err(e)
      case Ok(None) => CarMappingFrom(es[1..], acc)
      case Ok(Some((vin, ref))) => CarMappingFrom(es[1..], acc[vin := ref])
  }

  // ---------------------------------------------------------------------------
  // The sales loop: which sales count
  // ---------------------------------------------------------------------------

  /**
    The VIN field of a sales line: nothing for a blank line, `IndexError` for
    a line with fewer than 2 fields.
   */
  function SaleVin(line: string): Result<Option<string>> {
    if Strip(line) == [] then Ok(None)
    else
      var fs := Fields(line);
      if |fs| < 2 then Err(MissingField) else Ok(Some(fs[1]))
  }

  /** The VIN field of each sales line, in file order. */
  function SaleVins(ls: seq<string>): (vs: seq<Result<Option<string>>>)
    ensures |vs| == |ls|
    ensures forall i :: 0 <= i < |ls| ==> vs[i] == SaleVin(ls[i])
  {
    seq(|ls|, i requires 0 <= i < |ls| => SaleVin(ls[i]))
  }

  /** The cars sold, in sales order, from `acc` on: a sale of a VIN not in the mapping is ignored. */
  function SoldFrom(vs: seq<Result<Option<string>>>, mapping: map<string, CarRef>, acc: seq<CarRef>): Result<seq<CarRef>>
    decreases |vs|
  {
    if vs == [] then Ok(acc)
    else match vs[0]
      case Err(e) => Err(e)
      case Ok(None) => SoldFrom(vs[1..], mapping, acc)
      case Ok(Some(vin)) =>
        if vin in mapping then SoldFrom(vs[1..], mapping, acc + [mapping[vin]])
        else SoldFrom(vs[1..], mapping, acc)
  }

  // ---------------------------------------------------------------------------
  // sales_count and max_price
  // ---------------------------------------------------------------------------

  /**
    One entry of `sales_count` with its `max_price`. The two dicts always
    gain a model together, so one list of entries in insertion order models
    both (and the dict order `sorted` starts from).
   */
  datatype Tally = Tally(model: int, count: nat, maxPrice: int)

  /** Where `model` sits among the entries, if it has one: a dict key lookup. */
  function FindModel(ts: seq<Tally>, model: int): (r: Option<nat>)
    ensures r.Some? ==> r.value < |ts| && ts[r.value].model == model
    ensures r.None? ==> forall i :: 0 <= i < |ts| ==> ts[i].model != model
  {
    if ts == [] then None
    else if ts[0].model == model then Some(0)
    else match FindModel(ts[1..], model)
      case None => None
      case Some(i) => Some(i + 1)
  }

  /**
    `sales_count[m] = sales_count.get(m, 0) + 1` and the `max_price` update
    for one sale: a known model's entry is updated where it stands, a new
    model is added at the end.
   */
  function Bump(ts: seq<Tally>, model: int, price: int): seq<Tally> {
    match FindModel(ts, model)
    case Some(i) =>
      ts[i := Tally(model, ts[i].count + 1, if price > ts[i].maxPrice then price else ts[i].maxPrice)]
    case None => ts + [Tally(model, 1, price)]
  }

  /** The tallies after counting the sold cars `refs` in order. */
  function TallyOf(refs: seq<CarRef>): seq<Tally> {
    if refs == [] then []
    else
      var last := refs[|refs| - 1];
      Bump(TallyOf(refs[..|refs| - 1]), last.model, last.price)
  }

  /** How many of `refs` are cars of `model`. */
  function CountOf(refs: seq<CarRef>, model: int): nat {
    if refs == [] then 0
    else CountOf(refs[..|refs| - 1], model) + (if refs[|refs| - 1].model == model then 1 else 0)
  }

  /** The entries name distinct models. */
  predicate DistinctModels(ts: seq<Tally>) {
    forall i, j :: 0 <= i < j < |ts| ==> ts[i].model != ts[j].model
  }

  /** `t` is the tally of `model` over `refs`: the count, and a price sold that no other sale of it beats. */
  predicate Tallies(t: Tally, refs: seq<CarRef>) {
    && t.count == CountOf(refs, t.model)
    && (exists j :: 0 <= j < |refs| && refs[j] == CarRef(t.model, t.maxPrice))
    && (forall j :: 0 <= j < |refs| && refs[j].model == t.model ==> refs[j].price <= t.maxPrice)
  }

  /** Which entry of `ts` names `model`, if any. */
  predicate Names(ts: seq<Tally>, model: int) {
    exists i :: 0 <= i < |ts| && ts[i].model == model
  }

  /**
    The tallies count every sold car of each model exactly once, carry the
    highest price it sold at, and name each sold model exactly once.
   */
  lemma {:induction false} TallyOfCounts(refs: seq<CarRef>)
    ensures DistinctModels(TallyOf(refs))
    ensures forall i :: 0 <= i < |TallyOf(refs)| ==> Tallies(TallyOf(refs)[i], refs)
    ensures forall j :: 0 <= j < |refs| ==> Names(TallyOf(refs), refs[j].model)
    decreases |refs|
  {
    if refs != [] {
      var init := refs[..|refs| - 1];
      var last := refs[|refs| - 1];
      var ts := TallyOf(init);
      TallyOfCounts(init);
      var r := Bump(ts, last.model, last.price);
      assert TallyOf(refs) == r;
      BumpDistinct(ts, last.model, last.price);
      forall i | 0 <= i < |r|
        ensures Tallies(r[i], refs)
      {
        assert refs == init + [last];
        TallyStep(ts, init, last, i);
      }
      forall j | 0 <= j < |refs|
        ensures Names(r, refs[j].model)
      {
        if j < |init| {
          assert refs[j] == init[j];
          var k :| 0 <= k < |ts| && ts[k].model == init[j].model;
          assert r[k].model == ts[k].model;
        } else {
          var k := if FindModel(ts, last.model).Some? then FindModel(ts, last.model).value else |ts|;
          assert r[k].model == last.model;
        }
      }
    }
  }

  /** Where the first sale of `model` stands in `refs`, or `|refs|` when it has none. */
  function FirstSeen(refs: seq<CarRef>, model: int): (k: nat)
    ensures k <= |refs|
    ensures k < |refs| ==> refs[k].model == model
    ensures forall j :: 0 <= j < k ==> refs[j].model != model
  {
    if refs == [] then 0
    else if refs[0].model == model then 0
    else 1 + FirstSeen(refs[1..], model)
  }

  /** One more sale changes where a model is first seen only if it had not been seen. */
  lemma {:induction false} FirstSeenAppend(init: seq<CarRef>, x: CarRef, model: int)
    ensures FirstSeen(init + [x], model) ==
      if FirstSeen(init, model) < |init| then FirstSeen(init, model)
      else if x.model == model then |init| else |init| + 1
    decreases |init|
  {
    if init == [] {
      assert init + [x] == [x];
    } else {
      assert (init + [x])[0] == init[0];
      assert (init + [x])[1..] == init[1..] + [x];
      if init[0].model != model {
        FirstSeenAppend(init[1..], x, model);
      }
    }
  }

  /** Bumping keeps each entry's model in place and adds at most the bumped model, at the end, when it is new. */
  lemma BumpModels(ts: seq<Tally>, model: int, price: int)
    ensures var r := Bump(ts, model, price);
      && |ts| <= |r| <= |ts| + 1
      && (forall i :: 0 <= i < |ts| ==> r[i].model == ts[i].model)
      && (|r| > |ts| ==> r[|ts|].model == model && forall k :: 0 <= k < |ts| ==> ts[k].model != model)
  {
  }

  /** A model with no tally was never sold. */
  lemma UntalliedUnseen(refs: seq<CarRef>, model: int)
    requires forall k :: 0 <= k < |TallyOf(refs)| ==> TallyOf(refs)[k].model != model
    ensures FirstSeen(refs, model) == |refs|
  {
    TallyOfCounts(refs);
    forall j | 0 <= j < |refs|
      ensures refs[j].model != model
    {
      var k :| 0 <= k < |TallyOf(refs)| && TallyOf(refs)[k].model == refs[j].model;
    }
  }

  /**
    The tallies list the models in the order of their first sale, as the
    dicts of `top_models_by_sales` keep their keys in insertion order; this
    is the order the stable ranking breaks ties by.
   */
  lemma {:induction false} TallyOfFirstSeen(refs: seq<CarRef>)
    ensures forall i :: 0 <= i < |TallyOf(refs)| ==> FirstSeen(refs, TallyOf(refs)[i].model) < |refs|
    ensures forall i, j :: 0 <= i < j < |TallyOf(refs)| ==>
      FirstSeen(refs, TallyOf(refs)[i].model) < FirstSeen(refs, TallyOf(refs)[j].model)
    decreases |refs|
  {
    if refs != [] {
      var init := refs[..|refs| - 1];
      var last := refs[|refs| - 1];
      assert refs == init + [last];
      var ts := TallyOf(init);
      TallyOfFirstSeen(init);
      BumpModels(ts, last.model, last.price);
      var r := Bump(ts, last.model, last.price);
      assert TallyOf(refs) == r;
      forall i | 0 <= i < |ts|
        ensures FirstSeen(refs, r[i].model) == FirstSeen(init, ts[i].model) < |init|
      {
        FirstSeenAppend(init, last, ts[i].model);
      }
      if |r| > |ts| {
        UntalliedUnseen(init, last.model);
        FirstSeenAppend(init, last, last.model);
      }
    }
  }

  /** Bumping keeps the models distinct. */
  lemma BumpDistinct(ts: seq<Tally>, model: int, price: int)
    requires DistinctModels(ts)
    ensures DistinctModels(Bump(ts, model, price))
  {
    var r := Bump(ts, model, price);
    assert |r| >= |ts|;
    assert forall i :: 0 <= i < |ts| ==> r[i].model == ts[i].model;
  }

  /** One entry of the bumped tallies is the tally of its model over the longer list. */
  lemma TallyStep(ts: seq<Tally>, init: seq<CarRef>, last: CarRef, i: nat)
    requires DistinctModels(ts)
    requires forall k :: 0 <= k < |ts| ==> Tallies(ts[k], init)
    requires forall j :: 0 <= j < |init| ==> Names(ts, init[j].model)
    requires i < |Bump(ts, last.model, last.price)|
    ensures Tallies(Bump(ts, last.model, last.price)[i], init + [last])
  {
    var refs := init + [last];
    assert refs[..|refs| - 1] == init;
    var r := Bump(ts, last.model, last.price);
    var t := r[i];
    assert CountOf(refs, t.model) == CountOf(init, t.model) + (if last.model == t.model then 1 else 0);
    var found := FindModel(ts, last.model);
    if i < |ts| && (found.None? || found.value != i) {
      assert t == ts[i] && t.model != last.model;
      var w :| 0 <= w < |init| && init[w] == CarRef(t.model, t.maxPrice);
      assert refs[w] == init[w];
      forall j | 0 <= j < |refs| && refs[j].model == t.model
        ensures refs[j].price <= t.maxPrice
      {
        assert refs[j] == init[j];
      }
    } else if i < |ts| {
      var old_ := ts[i];
      var w :| 0 <= w < |init| && init[w] == CarRef(old_.model, old_.maxPrice);
      if last.price > old_.maxPrice {
        assert refs[|init|] == CarRef(t.model, t.maxPrice);
      } else {
        assert refs[w] == CarRef(t.model, t.maxPrice);
      }
      forall j | 0 <= j < |refs| && refs[j].model == t.model
        ensures refs[j].price <= t.maxPrice
      {
        if j < |init| {
          assert refs[j] == init[j];
        }
      }
    } else {
      assert t == Tally(last.model, 1, last.price);
      forall j | 0 <= j < |init|
        ensures init[j].model != last.model
      {
        assert Names(ts, init[j].model);
      }
      CountAbsent(init, last.model);
      assert refs[|init|] == CarRef(t.model, t.maxPrice);
      assert forall j :: 0 <= j < |init| ==> refs[j] == init[j];
    }
  }

  /** A model no car of `refs` belongs to has count zero. */
  lemma {:induction false} CountAbsent(refs: seq<CarRef>, model: int)
    requires forall j :: 0 <= j < |refs| ==> refs[j].model != model
    ensures CountOf(refs, model) == 0
    decreases |refs|
  {
    if refs != [] {
      CountAbsent(refs[..|refs| - 1], model);
    }
  }

  // ---------------------------------------------------------------------------
  // sorted(..., key=(count, max_price), reverse=True)
  // ---------------------------------------------------------------------------

  /** `a`'s sort key `(count, max_price)` is strictly greater than `b`'s. */
  predicate Outranks(a: Tally, b: Tally) {
    a.count > b.count || (a.count == b.count && a.maxPrice > b.maxPrice)
  }

  /** Non-increasing in `(count, max_price)`. */
  predicate Descending(s: seq<Tally>) {
    forall i, j :: 0 <= i < j < |s| ==> !Outranks(s[j], s[i])
  }

  /** Where `x` goes: after every entry whose key is at least its own. */
  function InsertPos(s: seq<Tally>, x: Tally): (k: nat)
    ensures k <= |s|
    ensures forall j :: 0 <= j < k ==> !Outranks(x, s[j])
    ensures k < |s| ==> Outranks(x, s[k])
  {
    if s == [] || Outranks(x, s[0]) then 0
    else 1 + InsertPos(s[1..], x)
  }

  /** Inserts `x` at its place. */
  function Insert(s: seq<Tally>, x: Tally): seq<Tally> {
    var k := InsertPos(s, x);
    s[..k] + [x] + s[k..]
  }

  /**
    Python's stable `sorted(..., reverse=True)` on the key: entries with a
    larger key first, entries with equal keys in their original order.
   */
  function Rank(ts: seq<Tally>): seq<Tally> {
    if ts == [] then []
    else Insert(Rank(ts[..|ts| - 1]), ts[|ts| - 1])
  }

  /** The entries of `s` whose key is `(count, price)`, in order. */
  function WithKey(s: seq<Tally>, count: nat, price: int): seq<Tally> {
    if s == [] then []
    else
      (if s[0].count == count && s[0].maxPrice == price then [s[0]] else [])
      + WithKey(s[1..], count, price)
  }

  /** `WithKey` distributes over concatenation. */
  lemma {:induction false} WithKeyConcat(a: seq<Tally>, b: seq<Tally>, c: nat, p: int)
    ensures WithKey(a + b, c, p) == WithKey(a, c, p) + WithKey(b, c, p)
    decreases |a|
  {
    if a != [] {
      assert (a + b)[0] == a[0];
      assert (a + b)[1..] == a[1..] + b;
      WithKeyConcat(a[1..], b, c, p);
    } else {
      assert a + b == b;
    }
  }

  /** No entry of `s` has key `(c, p)`. */
  lemma {:induction false} WithKeyNone(s: seq<Tally>, c: nat, p: int)
    requires forall j :: 0 <= j < |s| ==> s[j].count != c || s[j].maxPrice != p
    ensures WithKey(s, c, p) == []
    decreases |s|
  {
    if s != [] {
      WithKeyNone(s[1..], c, p);
    }
  }

  /** Inserting into a descending list keeps it descending. */
  lemma InsertDescending(s: seq<Tally>, x: Tally)
    requires Descending(s)
    ensures Descending(Insert(s, x))
  {
    var k := InsertPos(s, x);
    var r := Insert(s, x);
    assert |r| == |s| + 1;
    assert forall j :: 0 <= j < k ==> r[j] == s[j];
    assert r[k] == x;
    assert forall j :: k < j < |r| ==> r[j] == s[j - 1];
  }

  /** Inserting adds `x` and nothing else. */
  lemma InsertMultiset(s: seq<Tally>, x: Tally)
    ensures multiset(Insert(s, x)) == multiset(s) + multiset{x}
  {
    var k := InsertPos(s, x);
    assert s == s[..k] + s[k..];
  }

  /** Inserting into a descending list puts `x` after the entries that share its key. */
  lemma InsertWithKey(s: seq<Tally>, x: Tally, c: nat, p: int)
    requires Descending(s)
    ensures WithKey(Insert(s, x), c, p) ==
      if x.count == c && x.maxPrice == p then WithKey(s, c, p) + [x] else WithKey(s, c, p)
  {
    var k := InsertPos(s, x);
    var pre, post := s[..k], s[k..];
    assert s == pre + post;
    assert Insert(s, x) == pre + [x] + post;
    WithKeyConcat(pre + [x], post, c, p);
    WithKeyConcat(pre, [x], c, p);
    WithKeyConcat(pre, post, c, p);
    assert WithKey([x], c, p) == (if x.count == c && x.maxPrice == p then [x] else []) + WithKey([], c, p);
    if x.count == c && x.maxPrice == p {
      TailWithoutKey(s, x);
    }
  }

  /** No entry from `x`'s place on in a descending list shares `x`'s key. */
  lemma TailWithoutKey(s: seq<Tally>, x: Tally)
    requires Descending(s)
    ensures WithKey(s[InsertPos(s, x)..], x.count, x.maxPrice) == []
  {
    var k := InsertPos(s, x);
    var post := s[k..];
    forall j | 0 <= j < |post|
      ensures post[j].count != x.count || post[j].maxPrice != x.maxPrice
    {
      assert post[j] == s[k + j];
      Outranked(s, x, k + j);
    }
    WithKeyNone(post, x.count, x.maxPrice);
  }

  /** In a descending list, every entry from `x`'s place on has a key below `x`'s. */
  lemma Outranked(s: seq<Tally>, x: Tally, j: nat)
    requires Descending(s) && InsertPos(s, x) <= j < |s|
    ensures Outranks(x, s[j])
  {
    var k := InsertPos(s, x);
    if j > k {
      assert !Outranks(s[j], s[k]);
    }
  }

  /** `WithKey` of a list extended by one entry. */
  lemma {:induction false} WithKeyAppend(s: seq<Tally>, x: Tally, c: nat, p: int)
    ensures WithKey(s + [x], c, p) == WithKey(s, c, p) + (if x.count == c && x.maxPrice == p then [x] else [])
    decreases |s|
  {
    if s == [] {
      assert [x][1..] == [];
    } else {
      assert (s + [x])[1..] == s[1..] + [x];
      WithKeyAppend(s[1..], x, c, p);
    }
  }

  /**
    The ranking is descending in `(count, max_price)`, holds exactly the
    entries of `ts`, and keeps entries with equal keys in their original
    order (the sort is stable).
   */
  lemma {:induction false} RankSorted(ts: seq<Tally>)
    ensures Descending(Rank(ts))
    ensures multiset(Rank(ts)) == multiset(ts)
    ensures forall c: nat, p: int :: WithKey(Rank(ts), c, p) == WithKey(ts, c, p)
    decreases |ts|
  {
    if ts != [] {
      var init := ts[..|ts| - 1];
      var last := ts[|ts| - 1];
      RankSorted(init);
      InsertDescending(Rank(init), last);
      InsertMultiset(Rank(init), last);
      assert ts == init + [last];
      forall c: nat, p: int
        ensures WithKey(Rank(ts), c, p) == WithKey(ts, c, p)
      {
        InsertWithKey(Rank(init), last, c, p);
        WithKeyAppend(init, last, c, p);
      }
    }
  }

  /** `sorted_models[:3]` */
  function TopThree(s: seq<Tally>): (r: seq<Tally>)
    ensures |r| <= 3 && |r| <= |s| && r == s[..|r|]
    ensures |s| >= 3 ==> |r| == 3
    ensures |s| < 3 ==> r == s
  {
    if |s| <= 3 then s else s[..3]
  }
}
