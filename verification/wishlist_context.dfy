/** The in-memory wishlist of src/context/WishlistContext.tsx: a list of
    products that starts empty, with an idempotent add and a filtering remove. */
module WishlistContext {

  /** The context's own, smaller product shape. */
  datatype WishItem = WishItem(id: string, title: string, price: real, image: string)

  const Initial: seq<WishItem> := []

  /** Some item on the list carries `id`. */
  predicate Listed(w: seq<WishItem>, id: string) {
    exists k :: 0 <= k < |w| && w[k].id == id
  }

  /** The set of ids on the list. */
  function Ids(w: seq<WishItem>): (r: set<string>)
    ensures forall id :: id in r <==> Listed(w, id)
  {
    set k | 0 <= k < |w| :: w[k].id
  }

  predicate UniqueIds(w: seq<WishItem>) {
    forall i, j :: 0 <= i < j < |w| ==> w[i].id != w[j].id
  }

  /** `addToWishlist`: a product whose id is already listed leaves the list as
      it is; otherwise it is appended. */
  function Add(w: seq<WishItem>, p: WishItem): (r: seq<WishItem>)
    ensures p.id in Ids(w) ==> r == w
    ensures p.id !in Ids(w) ==> r == w + [p]
  {
    if Listed(w, p.id) then w else w + [p]
  }

  /** `removeFromWishlist`: the items with other ids, in their order. */
  function Remove(w: seq<WishItem>, id: string): (r: seq<WishItem>)
    ensures forall x :: x in r <==> x in w && x.id != id
  {
    if |w| == 0 then []
    else if w[0].id == id then Remove(w[1..], id)
    else [w[0]] + Remove(w[1..], id)
  }

  /** Remove works part by part: removing from a concatenation removes from
      each part, so the kept items stay in their order. */
  lemma {:induction false} RemoveAppend(a: seq<WishItem>, b: seq<WishItem>, id: string)
    ensures Remove(a + b, id) == Remove(a, id) + Remove(b, id)
    decreases |a|
  {
    if |a| == 0 {
      assert a + b == b;
    } else {
      var rest := a[1..] + b;
      assert a + b == [a[0]] + rest;
      assert (a + b)[1..] == rest;
      RemoveAppend(a[1..], b, id);
    }
  }

  /** A single item is dropped exactly when it carries `id`. */
  lemma RemoveSingle(x: WishItem, id: string)
    ensures Remove([x], id) == if x.id == id then [] else [x]
  {
    assert [x][1..] == [];
  }


  /** Remove keeps each item with another id as many times as it occurs. */
  lemma {:induction false} RemoveCounts(w: seq<WishItem>, id: string, x: WishItem)
    ensures multiset(Remove(w, id))[x] == if x.id == id then 0 else multiset(w)[x]
    decreases |w|
  {
    if |w| > 0 {
      assert w == [w[0]] + w[1..];
      RemoveCounts(w[1..], id, x);
    }
  }

  /** The list's ids move exactly as a set would: add inserts one id, remove
      deletes one, and adding twice is the same as adding once. */
  lemma IdsFollowSetSemantics(w: seq<WishItem>, p: WishItem, id: string)
    ensures Ids(Add(w, p)) == Ids(w) + {p.id}
    ensures Ids(Remove(w, id)) == Ids(w) - {id}
    ensures Add(Add(w, p), p) == Add(w, p)
  {
    var r := Remove(w, id);
    forall x | x in Ids(w) - {id} ensures x in Ids(r) {
      var k :| 0 <= k < |w| && w[k].id == x;
      assert w[k] in r;
      var j :| 0 <= j < |r| && r[j] == w[k];
    }
    forall x | x in Ids(r) ensures x in Ids(w) - {id} {
      var k :| 0 <= k < |r| && r[k].id == x;
      assert r[k] in w;
    }
    if p.id !in Ids(w) {
      var a := w + [p];
      assert a[|w|] == p;
      forall x | x in Ids(w) ensures x in Ids(a) {
        var k :| 0 <= k < |w| && w[k].id == x;
        assert a[k] == w[k];
      }
      forall x | x in Ids(a) ensures x in Ids(w) + {p.id} {
        var k :| 0 <= k < |a| && a[k].id == x;
        if k < |w| {
          assert a[k] == w[k];
        }
      }
    }
  }

  /** Removing an id that is not listed changes nothing. */
  lemma {:induction false} RemoveAbsent(w: seq<WishItem>, id: string)
    requires id !in Ids(w)
    ensures Remove(w, id) == w
    decreases |w|
  {
    if |w| > 0 {
      assert w[0].id != id;
      assert id !in Ids(w[1..]) by {
        forall k | 0 <= k < |w[1..]| ensures w[1..][k].id != id {
          assert w[1..][k] == w[k + 1];
        }
      }
      RemoveAbsent(w[1..], id);
    }
  }

  lemma {:induction false} RemoveKeepsUnique(w: seq<WishItem>, id: string)
    requires UniqueIds(w)
    ensures UniqueIds(Remove(w, id))
    decreases |w|
  {
    if |w| > 0 {
      var tail := w[1..];
      assert UniqueIds(tail) by {
        forall i, j | 0 <= i < j < |tail| ensures tail[i].id != tail[j].id {
          assert tail[i] == w[i + 1] && tail[j] == w[j + 1];
        }
      }
      RemoveKeepsUnique(tail, id);
      if w[0].id != id {
        var rest := Remove(tail, id);
        var r := [w[0]] + rest;
        forall j | 0 <= j < |rest| ensures rest[j].id != w[0].id {
          assert rest[j] in tail;
          var k :| 0 <= k < |tail| && tail[k] == rest[j];
          assert tail[k] == w[k + 1];
        }
        forall i, j | 0 <= i < j < |r| ensures r[i].id != r[j].id {
          assert r[j] == rest[j - 1];
          if i > 0 {
            assert r[i] == rest[i - 1];
          }
        }
      }
    }
  }

  datatype Op = AddOp(item: WishItem) | RemoveOp(id: string)

  function Apply(w: seq<WishItem>, op: Op): seq<WishItem> {
    match op
    case AddOp(p) => Add(w, p)
    case RemoveOp(id) => Remove(w, id)
  }

  /** The list after a sequence of operations, starting from the empty list. */
  function Run(ops: seq<Op>): seq<WishItem> {
    if |ops| == 0 then Initial else Apply(Run(ops[..|ops| - 1]), ops[|ops| - 1])
  }

  /** Whatever the sequence of adds and removes, no id is ever listed twice. */
  lemma {:induction false} RunKeepsUnique(ops: seq<Op>)
    ensures UniqueIds(Run(ops))
    decreases |ops|
  {
    if |ops| > 0 {
      var w := Run(ops[..|ops| - 1]);
      RunKeepsUnique(ops[..|ops| - 1]);
      match ops[|ops| - 1]
      case AddOp(p) =>
        if p.id !in Ids(w) {
          var r := w + [p];
          forall i, j | 0 <= i < j < |r| ensures r[i].id != r[j].id {
            if j == |w| {
              assert r[i] == w[i];
            }
          }
        }
      case RemoveOp(id) => RemoveKeepsUnique(w, id);
    }
  }
}
