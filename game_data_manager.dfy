/**
 * `GameDataManager`: a cache of item batches keyed by the items' type. A
 * batch is stored once and kept unless a refresh is forced; lookups return the
 * stored batch, or the items in it with a given ID or satisfying a predicate.
 */
module GameDataCache {
  /** Stands for the item type `T` that keys the cache. */
  type TypeTag = string

  /** An item of a batch; the cache only relies on its `ID`. */
  datatype GameData = GameData(id: int, payload: string)

  /** The items of `items` that satisfy `p`, in their stored order (a LINQ `Where`). */
  function Filter(items: seq<GameData>, p: GameData -> bool): (r: seq<GameData>)
    ensures |r| <= |items|
    ensures forall x :: x in r ==> x in items && p(x)
    ensures forall x :: x in items && p(x) ==> x in r
  {
    if items == [] then []
    else (if p(items[0]) then [items[0]] else []) + Filter(items[1..], p)
  }

  /** `a` is `b` with some items left out, the rest in the same order. */
  predicate IsSubsequence(a: seq<GameData>, b: seq<GameData>)
    decreases |b|
  {
    if a == [] then true
    else if b == [] then false
    else if a[0] == b[0] then IsSubsequence(a[1..], b[1..])
    else IsSubsequence(a, b[1..])
  }

  /** Filtering keeps the stored order. */
  lemma {:induction false} FilterIsSubsequence(items: seq<GameData>, p: GameData -> bool)
    ensures IsSubsequence(Filter(items, p), items)
    decreases |items|
  {
    if items != [] {
      FilterIsSubsequence(items[1..], p);
      var rest := Filter(items[1..], p);
      if p(items[0]) {
        assert Filter(items, p) == [items[0]] + rest;
        assert ([items[0]] + rest)[1..] == rest;
      } else {
        assert Filter(items, p) == rest;
        SubsequenceOfTail(rest, items);
      }
    }
  }

  /** Putting one more item in front of `b` keeps `a` a subsequence of it. */
  lemma {:induction false} SubsequenceOfTail(a: seq<GameData>, b: seq<GameData>)
    requires b != [] && IsSubsequence(a, b[1..])
    ensures IsSubsequence(a, b)
    decreases |b|, |a|
  {
    if a != [] && a[0] == b[0] {
      SubsequenceDropHead(a, b[1..]);
    }
  }

  /** Leaving out the first item of a subsequence keeps it a subsequence. */
  lemma {:induction false} SubsequenceDropHead(a: seq<GameData>, c: seq<GameData>)
    requires a != [] && IsSubsequence(a, c)
    ensures IsSubsequence(a[1..], c)
    decreases |c|, |a|
  {
    if a[1..] != [] {
      if a[0] == c[0] {
        SubsequenceOfTail(a[1..], c);
      } else {
        SubsequenceDropHead(a, c[1..]);
        SubsequenceOfTail(a[1..], c);
      }
    }
  }

  /** Every item is kept exactly as many times as it is stored when it satisfies `p`, and never otherwise. */
  lemma {:induction false} FilterMultiplicity(items: seq<GameData>, p: GameData -> bool, x: GameData)
    ensures multiset(Filter(items, p))[x] == if p(x) then multiset(items)[x] else 0
    decreases |items|
  {
    if items != [] {
      FilterMultiplicity(items[1..], p, x);
      assert items == [items[0]] + items[1..];
    }
  }

  /** The cache itself. */
  class GameDataManager {
    var batchCache: map<TypeTag, seq<GameData>>

    constructor()
      ensures batchCache == map[]
    {
      batchCache := map[];
    }

    /** Stores `items` for `tag` unless a batch is already there and no refresh is forced. */
    method AddBatch(tag: TypeTag, items: seq<GameData>, forceUpdate: bool)
      modifies this
      ensures tag in old(batchCache) && !forceUpdate ==> batchCache == old(batchCache)
      ensures tag !in old(batchCache) || forceUpdate ==> batchCache == old(batchCache)[tag := items]
    {
      if tag in batchCache && !forceUpdate {
        return;
      }
      batchCache := batchCache[tag := items];
    }

    /**
     * Loads a batch through the handler and stores it, replacing any old one,
     * unless a batch is cached and no refresh is forced; `loaded` is what the
     * handler would deliver, and `handlerInvoked` says whether it was asked.
     */
    method AddAsync(tag: TypeTag, loaded: seq<GameData>, forceUpdate: bool) returns (handlerInvoked: bool)
      modifies this
      ensures handlerInvoked <==> tag !in old(batchCache) || forceUpdate
      ensures !handlerInvoked ==> batchCache == old(batchCache)
      ensures handlerInvoked ==> batchCache == old(batchCache)[tag := loaded]
    {
      if tag in batchCache && !forceUpdate {
        return false;
      }
      handlerInvoked := true;
      AddBatch(tag, loaded, true);
    }

    /** The stored batch for `tag`, or nothing when none is stored. */
    function GetAll(tag: TypeTag): (r: seq<GameData>)
      reads this
      ensures tag !in batchCache ==> r == []
      ensures tag in batchCache ==> r == batchCache[tag]
    {
      if tag in batchCache then batchCache[tag] else []
    }

    /** The stored items for `tag` whose ID is `id`, in stored order and with every copy kept. */
    function GetById(tag: TypeTag, id: int): (r: seq<GameData>)
      reads this
      ensures forall x :: x in r ==> x.id == id && x in GetAll(tag)
      ensures forall x :: x in GetAll(tag) && x.id == id ==> x in r
      ensures IsSubsequence(r, GetAll(tag))
      ensures forall x :: multiset(r)[x] == if x.id == id then multiset(GetAll(tag))[x] else 0
    {
      var byId := (x: GameData) => x.id == id;
      FilterIsSubsequence(GetAll(tag), byId);
      assert forall x :: multiset(Filter(GetAll(tag), byId))[x] == if x.id == id then multiset(GetAll(tag))[x] else 0 by {
        forall x ensures multiset(Filter(GetAll(tag), byId))[x] == if byId(x) then multiset(GetAll(tag))[x] else 0 {
          FilterMultiplicity(GetAll(tag), byId, x);
        }
      }
      Filter(GetAll(tag), byId)
    }

    /** The stored items for `tag` that satisfy `matches`, in stored order and with every copy kept. */
    function Query(tag: TypeTag, matches: GameData -> bool): (r: seq<GameData>)
      reads this
      ensures forall x :: x in r ==> matches(x) && x in GetAll(tag)
      ensures forall x :: x in GetAll(tag) && matches(x) ==> x in r
      ensures IsSubsequence(r, GetAll(tag))
      ensures forall x :: multiset(r)[x] == if matches(x) then multiset(GetAll(tag))[x] else 0
    {
      FilterIsSubsequence(GetAll(tag), matches);
      assert forall x :: multiset(Filter(GetAll(tag), matches))[x] == if matches(x) then multiset(GetAll(tag))[x] else 0 by {
        forall x ensures multiset(Filter(GetAll(tag), matches))[x] == if matches(x) then multiset(GetAll(tag))[x] else 0 {
          FilterMultiplicity(GetAll(tag), matches, x);
        }
      }
      Filter(GetAll(tag), matches)
    }

    /** Drops the batch for `tag`; the others stay. */
    method Clear(tag: TypeTag)
      modifies this
      ensures batchCache == old(batchCache) - {tag}
      ensures GetAll(tag) == []
    {
      batchCache := batchCache - {tag};
    }
  }
}
