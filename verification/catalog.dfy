/** The logic under the product catalog controller, as values: the records
    it exchanges with the remote collection, identifier assignment, the change
    each successful write makes to the collection, the error texts, and the
    rendering rules for the list and the count display. */
module Catalog {
  import opened Wrappers
  import opened Decimal

  /** A product as the remote collection holds it. The id is the text of an
      integer; name and price are only ever copied, so the price is kept as
      the text of its number. */
  datatype Product = Product(id: string, name: string, price: string)

  /** What the form submits: a name and a price, without an id. */
  datatype ProductData = ProductData(name: string, price: string)

  /** How one request to the remote collection ended: a 2xx response, any
      other status, or a thrown error carrying its own message. */
  datatype Outcome = Ok | HttpError | NetworkError(message: string)

  /** A request issued to the collection endpoint; `target` is the id text
      placed in the URL. */
  datatype Request =
    | Get
    | Post(record: Product)
    | Put(target: string, data: ProductData)
    | Delete(target: string)

  /** One child of the rendered list: the empty-collection placeholder, or
      the card of one product (with its edit and delete controls). */
  datatype ListItem = Placeholder | Card(product: Product)

  /** Every stored id reads as an integer. */
  predicate NumericIds(store: seq<Product>) {
    forall p :: p in store ==> ParseInt(p.id).Some?
  }

  /** No two stored records share an id. */
  predicate UniqueIds(store: seq<Product>) {
    forall i, j :: 0 <= i < j < |store| ==> store[i].id != store[j].id
  }

  // ---------------- identifier assignment ----------------

  /** `Math.max` over a non-empty list. */
  function Max(xs: seq<int>): (m: int)
    requires xs != []
    ensures m in xs
    ensures forall x :: x in xs ==> x <= m
  {
    if |xs| == 1 then xs[0]
    else
      var rest := Max(xs[1..]);
      assert xs == [xs[0]] + xs[1..];
      if xs[0] > rest then xs[0] else rest
  }

  /** The ids of the collection, each read with `parseInt`. */
  function ParsedIds(store: seq<Product>): (ids: seq<int>)
    requires NumericIds(store)
    ensures |ids| == |store|
    ensures forall i :: 0 <= i < |store| ==> ParseInt(store[i].id) == Some(ids[i])
  {
    if store == [] then [] else [ParseInt(store[0].id).value] + ParsedIds(store[1..])
  }

  /** The next id: 1 for no ids, otherwise one more than the largest. */
  function NextId(ids: seq<int>): (r: int)
    ensures ids == [] ==> r == 1
    ensures ids != [] ==> r - 1 in ids
    ensures forall x :: x in ids ==> x < r
    ensures (forall x :: x in ids ==> x >= 0) ==> r >= 1
  {
    if ids == [] then 1 else Max(ids) + 1
  }

  /** `generateNewId`: computed from the collection as read when the read
      succeeds, otherwise the supplied clock value `now`. */
  function GenerateNewId(store: seq<Product>, readOk: bool, now: int): (id: int)
    requires readOk ==> NumericIds(store)
    ensures !readOk ==> id == now
    ensures readOk && store == [] ==> id == 1
    ensures readOk ==> forall p :: p in store ==> ParseInt(p.id).value < id
    ensures readOk && store != [] ==> exists p :: p in store && ParseInt(p.id) == Some(id - 1)
  {
    if !readOk then now
    else
      var ids := ParsedIds(store);
      assert forall p :: p in store ==> ParseInt(p.id).value in ids by {
        forall p | p in store ensures ParseInt(p.id).value in ids {
          var i :| 0 <= i < |store| && store[i] == p;
        }
      }
      assert store != [] ==> exists p :: p in store && ParseInt(p.id) == Some(NextId(ids) - 1) by {
        if store != [] {
          var k :| 0 <= k < |ids| && ids[k] == NextId(ids) - 1;
          assert store[k] in store;
        }
      }
      NextId(ids)
  }

  /** The record `createProduct` posts: the submitted name and price, with
      the new id attached in its text form. */
  function NewRecord(data: ProductData, id: int): (p: Product)
    ensures p.name == data.name && p.price == data.price
    ensures ParseInt(p.id) == Some(id)
  {
    IntTextRoundTrip(id);
    Product(IntText(id), data.name, data.price)
  }

  /** An id assigned from a successful read is new to the collection. */
  lemma NewIdFresh(store: seq<Product>, data: ProductData, now: int)
    requires NumericIds(store)
    ensures forall p :: p in store ==> p.id != NewRecord(data, GenerateNewId(store, true, now)).id
  {
    var id := GenerateNewId(store, true, now);
    forall p | p in store
      ensures p.id != NewRecord(data, id).id
    {
      assert ParseInt(NewRecord(data, id).id) == Some(id);
      assert ParseInt(p.id).value < id;
    }
  }

  /** Creating after a successful read keeps ids numeric and unique. */
  lemma CreateKeepsIdsUnique(store: seq<Product>, data: ProductData, now: int)
    requires NumericIds(store) && UniqueIds(store)
    ensures var s := store + [NewRecord(data, GenerateNewId(store, true, now))];
      NumericIds(s) && UniqueIds(s)
  {
    var r := NewRecord(data, GenerateNewId(store, true, now));
    var s := store + [r];
    NewIdFresh(store, data, now);
    forall i, j | 0 <= i < j < |s| ensures s[i].id != s[j].id {
      if j == |store| {
        assert s[i] in store;
      }
    }
  }

  /** With a failed read the clock value is used as it is, so an id already
      in the collection can be handed out again. */
  lemma FallbackMayDuplicate()
    ensures var store := [Product("5", "Pen", "1.5")];
      var id := GenerateNewId(store, false, 5);
      !UniqueIds(store + [NewRecord(ProductData("Ink", "2"), id)])
  {
    var store := [Product("5", "Pen", "1.5")];
    var id := GenerateNewId(store, false, 5);
    assert DigitChar(5) == '5';
    assert IntText(id) == "5";
    var s := store + [NewRecord(ProductData("Ink", "2"), id)];
    assert s[0].id == s[1].id;
  }

  /** The three-id example: ids 3, 7 and 2 give 8. */
  lemma NewIdAfterThreeSevenTwo()
    ensures GenerateNewId([Product("3", "a", "1"), Product("7", "b", "2"), Product("2", "c", "3")], true, 0) == 8
  {
    assert ParseInt("3") == Some(3) by { assert NatText(3) == "3"; NatTextRoundTrip(3); }
    assert ParseInt("7") == Some(7) by { assert NatText(7) == "7"; NatTextRoundTrip(7); }
    assert ParseInt("2") == Some(2) by { assert NatText(2) == "2"; NatTextRoundTrip(2); }
  }

  // ---------------- writes to the collection ----------------

  /** The collection after a successful `PUT` to `target`: every record with
      that id takes the submitted name and price and keeps its id; nothing is
      added and nothing else changes. */
  function Updated(store: seq<Product>, target: string, data: ProductData): (r: seq<Product>)
    ensures |r| == |store|
    ensures forall i :: 0 <= i < |r| ==>
      r[i] == if store[i].id == target then Product(target, data.name, data.price) else store[i]
  {
    if store == [] then []
    else
      [if store[0].id == target then Product(target, data.name, data.price) else store[0]]
      + Updated(store[1..], target, data)
  }

  /** An update keeps the set of ids, so ids stay numeric and unique. */
  lemma UpdatedKeepsIds(store: seq<Product>, target: string, data: ProductData)
    ensures var r := Updated(store, target, data);
      (forall i :: 0 <= i < |r| ==> r[i].id == store[i].id)
      && (NumericIds(store) ==> NumericIds(r))
      && (UniqueIds(store) ==> UniqueIds(r))
  {
    var r := Updated(store, target, data);
    forall p | p in r ensures exists i :: 0 <= i < |store| && p.id == store[i].id {
      var i :| 0 <= i < |r| && r[i] == p;
    }
  }

  /** The collection after a successful `DELETE` of `target`: exactly the
      records with that id are gone, every other record stays. */
  function Removed(store: seq<Product>, target: string): (r: seq<Product>)
    ensures forall p :: p in r <==> p in store && p.id != target
    ensures |r| <= |store|
    ensures (forall p :: p in store ==> p.id != target) ==> r == store
  {
    if store == [] then []
    else if store[0].id == target then Removed(store[1..], target)
    else [store[0]] + Removed(store[1..], target)
  }

  /** Every record without the target id keeps all its copies; every record
      with it loses all of them. */
  lemma {:induction false} RemovedCounts(store: seq<Product>, target: string, p: Product)
    ensures multiset(Removed(store, target))[p] == if p.id == target then 0 else multiset(store)[p]
  {
    if store != [] {
      assert store == [store[0]] + store[1..];
      RemovedCounts(store[1..], target, p);
    }
  }

  /** Deleting from two parts of the collection is deleting from each part,
      so the records that stay keep their relative order. */
  lemma {:induction false} RemovedKeepsOrder(a: seq<Product>, b: seq<Product>, target: string)
    ensures Removed(a + b, target) == Removed(a, target) + Removed(b, target)
  {
    if a != [] {
      assert (a + b)[0] == a[0];
      assert (a + b)[1..] == a[1..] + b;
      RemovedKeepsOrder(a[1..], b, target);
    } else {
      assert a + b == b;
    }
  }

  /** A delete keeps ids numeric. */
  lemma RemovedKeepsNumericIds(store: seq<Product>, target: string)
    requires NumericIds(store)
    ensures NumericIds(Removed(store, target))
  {
  }

  /** A delete keeps ids unique. */
  lemma {:induction false} RemovedKeepsUniqueIds(store: seq<Product>, target: string)
    requires UniqueIds(store)
    ensures UniqueIds(Removed(store, target))
  {
    if store != [] {
      var tail := store[1..];
      assert UniqueIds(tail);
      RemovedKeepsUniqueIds(tail, target);
      if store[0].id != target {
        HeadIdNotInRest(store, target);
        PrependKeepsUniqueIds(store[0], Removed(tail, target));
      }
    }
  }

  /** In a collection with unique ids, no record after the first shares its
      id, and a delete does not bring one in. */
  lemma HeadIdNotInRest(store: seq<Product>, target: string)
    requires UniqueIds(store) && store != []
    ensures forall p :: p in Removed(store[1..], target) ==> p.id != store[0].id
  {
    forall p | p in Removed(store[1..], target)
      ensures p.id != store[0].id
    {
      var j :| 0 <= j < |store[1..]| && store[1..][j] == p;
      assert store[j + 1] == p;
    }
  }

  lemma PrependKeepsUniqueIds(p: Product, rest: seq<Product>)
    requires UniqueIds(rest)
    requires forall q :: q in rest ==> q.id != p.id
    ensures UniqueIds([p] + rest)
  {
    var r := [p] + rest;
    forall i, j | 0 <= i < j < |r| ensures r[i].id != r[j].id {
      if i == 0 {
        assert r[j] in rest;
      } else {
        assert r[i] == rest[i - 1] && r[j] == rest[j - 1];
      }
    }
  }

  // ---------------- error texts ----------------

  const CreatePrefix := "Error creating product: "
  const LoadPrefix := "Error loading products: "
  const UpdatePrefix := "Error updating product: "
  const DeletePrefix := "Error deleting product: "

  /** The banner text for a failed request: the operation's prefix, then the
      message of the error caught — the operation's own error for a non-2xx
      status (`thrown`), or the message of the error the request threw. */
  function ErrorText(prefix: string, thrown: string, o: Outcome): string
    requires !o.Ok?
  {
    prefix + (if o.NetworkError? then o.message else thrown)
  }

  /** The banner starts with the operation's prefix and goes on with the
      operation's own error text for a non-2xx status, or with the message of
      the error the request threw. */
  lemma ErrorTextShape(prefix: string, thrown: string, o: Outcome)
    requires !o.Ok?
    ensures var text := ErrorText(prefix, thrown, o);
      && |text| >= |prefix| && text[..|prefix|] == prefix
      && (o.HttpError? ==> text[|prefix|..] == thrown)
      && (o.NetworkError? ==> text[|prefix|..] == o.message)
  {
  }

  // ---------------- rendering ----------------

  /** One card per product, in collection order. */
  function Cards(products: seq<Product>): (items: seq<ListItem>)
    ensures |items| == |products|
    ensures forall i :: 0 <= i < |items| ==> items[i] == Card(products[i])
  {
    if products == [] then []
    else Cards(products[..|products| - 1]) + [Card(products[|products| - 1])]
  }

  /** `displayProducts`: the placeholder alone for an empty collection,
      otherwise exactly one card per product, in order. */
  function Rendered(products: seq<Product>): (items: seq<ListItem>)
    ensures products == [] ==> items == [Placeholder]
    ensures products != [] ==> Placeholder !in items
    ensures products != [] ==>
      |items| == |products| && forall i :: 0 <= i < |items| ==> items[i] == Card(products[i])
  {
    if products == [] then [Placeholder] else Cards(products)
  }

  /** The products whose cards a list shows, in order. */
  function ShownProducts(items: seq<ListItem>): seq<Product>
  {
    if items == [] then []
    else
      ShownProducts(items[..|items| - 1])
      + match items[|items| - 1] { case Placeholder => [] case Card(p) => [p] }
  }

  /** The rendered list shows exactly the collection it was rendered from. */
  lemma {:induction false} RenderedRoundTrip(products: seq<Product>)
    ensures ShownProducts(Rendered(products)) == products
  {
    if products == [] {
      assert [Placeholder][..0] == [];
    } else {
      CardsShown(products);
    }
  }

  lemma {:induction false} CardsShown(products: seq<Product>)
    ensures ShownProducts(Cards(products)) == products
  {
    if products != [] {
      var n := |products|;
      var items := Cards(products);
      assert items[..n - 1] == Cards(products[..n - 1]);
      CardsShown(products[..n - 1]);
      assert products[..n - 1] + [products[n - 1]] == products;
    }
  }

  const CountPrefix := "Total: "

  /** `updateProductCount`: "Total: n product", with an "s" unless n is 1. */
  function CountLabel(n: nat): string
  {
    CountPrefix + NatText(n) + " product" + (if n != 1 then "s" else "")
  }

  /** The label starts with "Total: " and ends in "s" exactly when the count
      is not 1. */
  lemma CountLabelShape(n: nat)
    ensures var text := CountLabel(n);
      && |text| > |CountPrefix| && text[..|CountPrefix|] == CountPrefix
      && (text[|text| - 1] == 's' <==> n != 1)
  {
  }

  /** Reads the count back from a count label. */
  function CountOf(text: string): Option<nat>
  {
    if |text| < |CountPrefix| || text[..|CountPrefix|] != CountPrefix then None
    else
      var digits := LeadingDigits(text[|CountPrefix|..]);
      if digits == [] then None else Some(ParseNat(digits))
  }

  /** The count label states the count it was made from. */
  lemma CountLabelRoundTrip(n: nat)
    ensures CountOf(CountLabel(n)) == Some(n)
  {
    var digits := NatText(n);
    var unit := " product" + (if n != 1 then "s" else "");
    var text := CountLabel(n);
    assert text == CountPrefix + (digits + unit);
    assert text[..|CountPrefix|] == CountPrefix;
    assert text[|CountPrefix|..] == digits + unit;
    assert unit[0] == ' ';
    LeadingDigitsOf(digits, unit);
    NatTextRoundTrip(n);
  }

  /** Different counts give different labels. */
  lemma CountLabelInjective(m: nat, n: nat)
    ensures CountLabel(m) == CountLabel(n) ==> m == n
  {
    CountLabelRoundTrip(m);
    CountLabelRoundTrip(n);
  }
}
