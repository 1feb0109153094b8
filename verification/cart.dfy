/** The front end's shopping cart and catalogue filter: a list of cart
    lines with two running totals that every mutation recomputes, and the
    product filter the catalogue page applies. Product ids are compared
    with strict equality; JavaScript numbers are modelled as integers. */
module Cart {
  import opened Wrappers
  import opened Text
  import opened Seqs

  /** A product as the catalogue page receives it; `description`,
      `category` and `brand` may be missing. */
  datatype CatalogProduct = CatalogProduct(
    id: string,
    name: string,
    description: Option<string>,
    category: Option<string>,
    brand: Option<string>,
    productType: string,
    pointsCost: int)

  /** A cart line: the product's fields spread into it, plus a quantity. */
  datatype CartLine = CartLine(product: CatalogProduct, quantity: int) {
    function Id(): string { product.id }
    function Points(): int { product.pointsCost * quantity }
  }

  datatype CartState = CartState(items: seq<CartLine>, totalItems: int, totalPoints: int)

  function Quantity(l: CartLine): int { l.quantity }
  function LinePoints(l: CartLine): int { l.Points() }

  /** The totals agree with the lines. */
  predicate TotalsConsistent(c: CartState) {
    c.totalItems == Sum(c.items, Quantity) && c.totalPoints == Sum(c.items, LinePoints)
  }

  /** `updateTotals`: the lines stay, the totals are recomputed from them. */
  function UpdateTotals(c: CartState): (r: CartState)
    ensures r.items == c.items && TotalsConsistent(r)
  {
    CartState(c.items, Sum(c.items, Quantity), Sum(c.items, LinePoints))
  }

  function HasId(id: string): CartLine -> bool {
    (l: CartLine) => l.Id() == id
  }

  function OtherId(id: string): CartLine -> bool {
    (l: CartLine) => l.Id() != id
  }

  /** Adds to a line's quantity. */
  function AddQuantity(q: int): CartLine -> CartLine {
    (l: CartLine) => l.(quantity := l.quantity + q)
  }

  /** Sets a line's quantity. */
  function SetQuantity(q: int): CartLine -> CartLine {
    (l: CartLine) => l.(quantity := q)
  }

  /** The number of lines with the given id. */
  function CountId(items: seq<CartLine>, id: string): nat {
    Count(items, HasId(id))
  }

  /** The lines with the given id replaced by `f` of themselves; the map
      the store runs over its lines. */
  function Relabel(items: seq<CartLine>, id: string, f: CartLine -> CartLine): (r: seq<CartLine>)
    ensures |r| == |items|
    ensures forall i :: 0 <= i < |items| ==> r[i] == if items[i].Id() == id then f(items[i]) else items[i]
  {
    if items == [] then []
    else [if items[0].Id() == id then f(items[0]) else items[0]] + Relabel(items[1..], id, f)
  }

  /** `addItem`: a product already in the cart has `quantity` added to its
      line; a new product is appended as one line with that quantity (1 by
      default in the store). The quantity is not checked. */
  function AddItem(c: CartState, product: CatalogProduct, quantity: int): (r: CartState)
    ensures TotalsConsistent(r)
    ensures CountId(c.items, product.id) > 0 ==>
      && |r.items| == |c.items|
      && (forall i :: 0 <= i < |c.items| && c.items[i].Id() == product.id ==>
            r.items[i] == c.items[i].(quantity := c.items[i].quantity + quantity))
      && (forall i :: 0 <= i < |c.items| && c.items[i].Id() != product.id ==> r.items[i] == c.items[i])
    ensures CountId(c.items, product.id) == 0 ==> r.items == c.items + [CartLine(product, quantity)]
  {
    if CountId(c.items, product.id) > 0 then
      UpdateTotals(c.(items := Relabel(c.items, product.id, AddQuantity(quantity))))
    else
      UpdateTotals(c.(items := c.items + [CartLine(product, quantity)]))
  }

  /** `removeItem`: every line with the id goes; the others keep their
      order. */
  function RemoveItem(c: CartState, productId: string): (r: CartState)
    ensures TotalsConsistent(r)
    ensures CountId(r.items, productId) == 0
    ensures r.items == Filter(c.items, OtherId(productId))
  {
    var kept := Filter(c.items, OtherId(productId));
    assert forall i :: 0 <= i < |kept| ==> kept[i].Id() != productId;
    UpdateTotals(c.(items := kept))
  }

  /** `updateQuantity`: a quantity of zero or less removes the lines;
      otherwise the matching lines get the new quantity and nothing else
      changes. */
  function UpdateQuantity(c: CartState, productId: string, quantity: int): (r: CartState)
    ensures quantity <= 0 ==> r == RemoveItem(c, productId)
    ensures quantity > 0 ==>
      && TotalsConsistent(r) && |r.items| == |c.items|
      && (forall i :: 0 <= i < |c.items| ==>
            r.items[i] == if c.items[i].Id() == productId then c.items[i].(quantity := quantity) else c.items[i])
  {
    if quantity <= 0 then RemoveItem(c, productId)
    else UpdateTotals(c.(items := Relabel(c.items, productId, SetQuantity(quantity))))
  }

  /** `clearCart`. */
  function ClearCart(c: CartState): (r: CartState)
    ensures r.items == [] && TotalsConsistent(r) && r.totalItems == 0 && r.totalPoints == 0
  {
    CartState([], 0, 0)
  }

  /** No two lines share an id. */
  predicate UniqueIds(items: seq<CartLine>) {
    forall i, j :: 0 <= i < j < |items| ==> items[i].Id() != items[j].Id()
  }

  /** Adding keeps ids unique, so a cart built by the store never holds two
      lines of one product. */
  lemma AddItemKeepsUniqueIds(c: CartState, product: CatalogProduct, quantity: int)
    requires UniqueIds(c.items)
    ensures UniqueIds(AddItem(c, product, quantity).items)
  {
    var r := AddItem(c, product, quantity);
    if CountId(c.items, product.id) > 0 {
      assert forall i :: 0 <= i < |c.items| ==> r.items[i].Id() == c.items[i].Id();
    }
  }

  /** Adding the same product twice is adding the two quantities at once. */
  lemma AddTwiceAddsQuantities(c: CartState, product: CatalogProduct, a: int, b: int)
    ensures AddItem(AddItem(c, product, a), product, b).items == AddItem(c, product, a + b).items
  {
    var id := product.id;
    var once := AddItem(c, product, a);
    if CountId(c.items, id) == 0 {
      var n := |c.items|;
      assert once.items[n].Id() == id;
      assert CountId(once.items, id) > 0;
      RelabelAppended(c.items, product, a, b);
    } else {
      assert once.items == Relabel(c.items, id, AddQuantity(a));
      RelabelKeepsCount(c.items, id, AddQuantity(a));
      RelabelTwice(c.items, id, a, b);
    }
  }

  /** Relabelling keeps the ids, so the count of an id. */
  lemma {:induction false} RelabelKeepsCount(items: seq<CartLine>, id: string, f: CartLine -> CartLine)
    requires forall l :: f(l).Id() == l.Id()
    ensures CountId(Relabel(items, id, f), id) == CountId(items, id)
  {
    if items != [] {
      RelabelKeepsCount(items[1..], id, f);
      assert Relabel(items, id, f)[1..] == Relabel(items[1..], id, f);
    }
  }

  /** Two additions to the matching lines are one addition of the sum. */
  lemma RelabelTwice(items: seq<CartLine>, id: string, a: int, b: int)
    ensures Relabel(Relabel(items, id, AddQuantity(a)), id, AddQuantity(b)) == Relabel(items, id, AddQuantity(a + b))
  {
    var once := Relabel(items, id, AddQuantity(a));
    assert forall i :: 0 <= i < |items| ==> once[i].Id() == items[i].Id();
  }

  /** Adding to the line just appended for a new product. */
  lemma RelabelAppended(items: seq<CartLine>, product: CatalogProduct, a: int, b: int)
    requires CountId(items, product.id) == 0
    ensures Relabel(items + [CartLine(product, a)], product.id, AddQuantity(b)) == items + [CartLine(product, a + b)]
  {
    var all := items + [CartLine(product, a)];
    assert forall i :: 0 <= i < |items| ==> items[i].Id() != product.id;
    assert forall i :: 0 <= i < |items| ==> all[i] == items[i];
  }

  /** Removing a product after adding it leaves the lines removal alone
      would leave. */
  lemma AddThenRemove(c: CartState, product: CatalogProduct, quantity: int)
    ensures RemoveItem(AddItem(c, product, quantity), product.id).items == RemoveItem(c, product.id).items
  {
    if CountId(c.items, product.id) == 0 {
      FilterAppend(c.items, [CartLine(product, quantity)], OtherId(product.id));
    } else {
      RelabelFilter(c.items, product.id, AddQuantity(quantity));
    }
  }

  /** Relabelling lines that are then removed is invisible. */
  lemma {:induction false} RelabelFilter(items: seq<CartLine>, id: string, f: CartLine -> CartLine)
    requires forall l :: f(l).Id() == l.Id()
    ensures Filter(Relabel(items, id, f), OtherId(id)) == Filter(items, OtherId(id))
  {
    if items != [] {
      RelabelFilter(items[1..], id, f);
      assert Relabel(items, id, f)[1..] == Relabel(items[1..], id, f);
    }
  }

  /** Adding `quantity` raises the item total by `quantity` for every line
      the product has, or by `quantity` once for a new line. */
  lemma AddItemTotals(c: CartState, product: CatalogProduct, quantity: int)
    requires TotalsConsistent(c)
    ensures var r := AddItem(c, product, quantity);
      && (CountId(c.items, product.id) == 0 ==>
            r.totalItems == c.totalItems + quantity
            && r.totalPoints == c.totalPoints + product.pointsCost * quantity)
      && (CountId(c.items, product.id) > 0 ==>
            r.totalItems == c.totalItems + quantity * CountId(c.items, product.id))
  {
    if CountId(c.items, product.id) == 0 {
      SumAppend(c.items, [CartLine(product, quantity)], Quantity);
      SumAppend(c.items, [CartLine(product, quantity)], LinePoints);
    } else {
      BumpSum(c.items, product.id, quantity);
    }
  }

  lemma {:induction false} BumpSum(items: seq<CartLine>, id: string, quantity: int)
    ensures Sum(Relabel(items, id, AddQuantity(quantity)), Quantity)
      == Sum(items, Quantity) + quantity * CountId(items, id)
  {
    if items != [] {
      BumpSum(items[1..], id, quantity);
      BumpSumCons(items, id, quantity);
    }
  }

  lemma BumpSumCons(items: seq<CartLine>, id: string, quantity: int)
    requires items != []
    requires Sum(Relabel(items[1..], id, AddQuantity(quantity)), Quantity)
      == Sum(items[1..], Quantity) + quantity * CountId(items[1..], id)
    ensures Sum(Relabel(items, id, AddQuantity(quantity)), Quantity)
      == Sum(items, Quantity) + quantity * CountId(items, id)
  {
    var r := Relabel(items, id, AddQuantity(quantity));
    assert r[1..] == Relabel(items[1..], id, AddQuantity(quantity));
    var countRest := CountId(items[1..], id);
    if items[0].Id() == id {
      assert CountId(items, id) == 1 + countRest;
      assert r[0].quantity == items[0].quantity + quantity;
      OneMoreMatchingLine(quantity, countRest);
    } else {
      assert CountId(items, id) == countRest;
      assert r[0] == items[0];
    }
  }

  /** One more line matching the id adds one more `quantity` to the bump
      the matching lines receive in total. */
  lemma OneMoreMatchingLine(quantity: int, matching: nat)
    ensures quantity * (1 + matching) == quantity + quantity * matching
  {
  }

  /** In a cart with unique ids, an existing product's line is the only one
      it has, so the item total rises by exactly `quantity`. */
  lemma AddExistingRaisesTotalByQuantity(c: CartState, product: CatalogProduct, quantity: int)
    requires TotalsConsistent(c) && UniqueIds(c.items) && CountId(c.items, product.id) > 0
    ensures AddItem(c, product, quantity).totalItems == c.totalItems + quantity
  {
    AddItemTotals(c, product, quantity);
    UniqueCountIsOne(c.items, product.id);
  }

  lemma {:induction false} UniqueCountIsOne(items: seq<CartLine>, id: string)
    requires UniqueIds(items) && CountId(items, id) > 0
    ensures CountId(items, id) == 1
  {
    var rest := items[1..];
    assert UniqueIds(rest) by {
      assert forall i :: 0 <= i < |rest| ==> rest[i] == items[i + 1];
    }
    if items[0].Id() == id {
      assert forall i :: 0 <= i < |rest| ==> rest[i].Id() != id by {
        assert forall i :: 0 <= i < |rest| ==> rest[i] == items[i + 1];
      }
    } else {
      UniqueCountIsOne(rest, id);
    }
  }

  // ---------------------------------------------------------------------
  // Catalogue filter

  /** The filter fields; an empty string switches a filter off. */
  datatype Filters = Filters(
    category: string, brand: string, productType: string,
    minPoints: string, maxPoints: string, search: string)

  const NoFilters: Filters := Filters("", "", "", "", "", "")

  predicate IsDigit(c: char) { '0' <= c <= '9' }

  predicate IsSpace(c: char) { c == ' ' || c == '\t' || c == '\n' || c == '\r' }

  /** The longest prefix made of decimal digits. */
  function DigitPrefix(s: string): (r: string)
    ensures IsPrefix(r, s)
    ensures forall i :: 0 <= i < |r| ==> IsDigit(r[i])
    ensures |r| < |s| ==> !IsDigit(s[|r|])
  {
    if s == [] || !IsDigit(s[0]) then [] else [s[0]] + DigitPrefix(s[1..])
  }

  /** What is left once the leading blanks are gone. */
  function TrimStart(s: string): (r: string)
    ensures r == [] || !IsSpace(r[0])
    ensures |r| <= |s| && r == s[|s| - |r|..]
    ensures forall i :: 0 <= i < |s| - |r| ==> IsSpace(s[i])
  {
    if s != [] && IsSpace(s[0]) then TrimStart(s[1..]) else s
  }

  /** JavaScript's `parseInt` in base ten: leading blanks, an optional
      sign, then the longest run of digits; no digits give NaN, modelled
      as `None`. */
  function ParseInt(s: string): (r: Option<int>)
    ensures r.None? <==> DigitPrefix(SignFree(TrimStart(s))) == []
  {
    ParseSigned(TrimStart(s))
  }

  /** The part of `parseInt` after the blanks: an optional sign, then the
      longest run of digits. */
  function ParseSigned(t: string): (r: Option<int>)
    ensures r.None? <==> DigitPrefix(SignFree(t)) == []
  {
    var digits := DigitPrefix(SignFree(t));
    if digits == [] then None
    else if t[0] == '-' then Some(-DigitsValue(digits))
    else Some(DigitsValue(digits))
  }

  /** The text after an optional leading sign. */
  function SignFree(t: string): string {
    if t != [] && (t[0] == '-' || t[0] == '+') then t[1..] else t
  }

  /** A printed natural number parses back to itself. */
  lemma ParsePrintedNat(n: nat)
    ensures ParseInt(NatToString(n)) == Some(n)
  {
    var s := NatToString(n);
    AllDigitsPrefix(s);
    DigitsValueOfNatToString(n);
  }

  /** A number printed with leading blanks, an optional sign and any text
      that does not go on with a digit parses back to the signed number. */
  lemma ParsePrintedInt(blanks: string, sign: string, n: nat, tail: string)
    requires forall i :: 0 <= i < |blanks| ==> IsSpace(blanks[i])
    requires sign == "" || sign == "+" || sign == "-"
    requires tail == [] || !IsDigit(tail[0])
    ensures ParseInt(blanks + sign + NatToString(n) + tail) == Some(if sign == "-" then -(n as int) else n as int)
  {
    var digits := NatToString(n);
    var t := sign + digits + tail;
    assert blanks + sign + digits + tail == blanks + t;
    assert t[0] == if sign == "" then digits[0] else sign[0];
    TrimBlanks(blanks, t);
    ParseSignedNat(sign, n, tail);
  }

  /** An optionally signed printed number, followed by text that does not
      go on with a digit, reads as the signed number. */
  lemma ParseSignedNat(sign: string, n: nat, tail: string)
    requires sign == "" || sign == "+" || sign == "-"
    requires tail == [] || !IsDigit(tail[0])
    ensures ParseSigned(sign + NatToString(n) + tail) == Some(if sign == "-" then -(n as int) else n as int)
  {
    ParseSignedDigits(sign, NatToString(n), tail);
    DigitsValueOfNatToString(n);
  }

  /** A sign and a run of digits ended by a non-digit read as the run's
      value, negated after a minus. */
  lemma ParseSignedDigits(sign: string, digits: string, tail: string)
    requires sign == "" || sign == "+" || sign == "-"
    requires digits != [] && forall i :: 0 <= i < |digits| ==> IsDigit(digits[i])
    requires tail == [] || !IsDigit(tail[0])
    ensures ParseSigned(sign + digits + tail) == Some(if sign == "-" then -DigitsValue(digits) else DigitsValue(digits))
  {
    var t := SignedRun(sign, digits, tail);
    ReadRun(t, digits);
  }

  /** `sign + digits + tail` is a text whose sign is `sign` and whose digit
      run is `digits`. */
  lemma SignedRun(sign: string, digits: string, tail: string) returns (t: string)
    requires sign == "" || sign == "+" || sign == "-"
    requires digits != [] && forall i :: 0 <= i < |digits| ==> IsDigit(digits[i])
    requires tail == [] || !IsDigit(tail[0])
    ensures t == sign + digits + tail && t != []
    ensures DigitPrefix(SignFree(t)) == digits
    ensures t[0] == '-' <==> sign == "-"
  {
    var rest := digits + tail;
    t := sign + rest;
    assert sign + digits + tail == t;
    DigitPrefixStops(digits, tail);
    if sign == "" {
      assert t == rest && t[0] == digits[0];
    } else {
      assert t[0] == sign[0] && t[1..] == rest;
    }
  }

  /** A text whose digit run is `digits` reads as the run's value, negated
      after a leading minus. */
  lemma ReadRun(t: string, digits: string)
    requires t != [] && digits != [] && DigitPrefix(SignFree(t)) == digits
    ensures ParseSigned(t) == Some(if t[0] == '-' then -DigitsValue(digits) else DigitsValue(digits))
  {
  }

  /** Trimming stops at the first character that is not blank. */
  lemma {:induction false} TrimBlanks(blanks: string, t: string)
    requires forall i :: 0 <= i < |blanks| ==> IsSpace(blanks[i])
    requires t == [] || !IsSpace(t[0])
    ensures TrimStart(blanks + t) == t
  {
    if blanks != [] {
      assert (blanks + t)[1..] == blanks[1..] + t;
      TrimBlanks(blanks[1..], t);
    }
  }

  /** The digit run ends where the digits end. */
  lemma {:induction false} DigitPrefixStops(digits: string, tail: string)
    requires forall i :: 0 <= i < |digits| ==> IsDigit(digits[i])
    requires tail == [] || !IsDigit(tail[0])
    ensures DigitPrefix(digits + tail) == digits
  {
    if digits != [] {
      assert (digits + tail)[1..] == digits[1..] + tail;
      DigitPrefixStops(digits[1..], tail);
    }
  }

  lemma {:induction false} AllDigitsPrefix(s: string)
    requires forall i :: 0 <= i < |s| ==> IsDigit(s[i])
    ensures DigitPrefix(s) == s
  {
    if s != [] {
      AllDigitsPrefix(s[1..]);
    }
  }

  /** `x < parseInt(bound)`; a comparison with NaN is false. */
  predicate BelowParsed(x: int, bound: string) {
    match ParseInt(bound)
    case Some(v) => x < v
    case None => false
  }

  predicate AboveParsed(x: int, bound: string) {
    match ParseInt(bound)
    case Some(v) => x > v
    case None => false
  }

  /** The search text occurs, case-insensitively, in the name or in the
      description when there is one. */
  predicate MatchesSearch(p: CatalogProduct, search: string) {
    || Contains(ToLower(p.name), ToLower(search))
    || (p.description.Some? && Contains(ToLower(p.description.value), ToLower(search)))
  }

  /** The body of the filter callback: each non-empty filter must pass. */
  predicate Passes(f: Filters, p: CatalogProduct) {
    && (f.search != "" ==> MatchesSearch(p, f.search))
    && (f.category != "" ==> p.category == Some(f.category))
    && (f.brand != "" ==> p.brand == Some(f.brand))
    && (f.productType != "" ==> p.productType == f.productType)
    && (f.minPoints != "" ==> !BelowParsed(p.pointsCost, f.minPoints))
    && (f.maxPoints != "" ==> !AboveParsed(p.pointsCost, f.maxPoints))
  }

  function PassesAll(f: Filters): CatalogProduct -> bool {
    (p: CatalogProduct) => Passes(f, p)
  }

  /** `getFilteredProducts`: the products that pass every non-empty filter,
      in their original order. */
  function GetFilteredProducts(products: seq<CatalogProduct>, f: Filters): (r: seq<CatalogProduct>)
    ensures forall i :: 0 <= i < |r| ==> r[i] in products
    ensures forall i :: 0 <= i < |products| ==> (products[i] in r <==> Passes(f, products[i]))
    ensures f.category != "" ==> forall i :: 0 <= i < |r| ==> r[i].category == Some(f.category)
    ensures f.brand != "" ==> forall i :: 0 <= i < |r| ==> r[i].brand == Some(f.brand)
    ensures f.productType != "" ==> forall i :: 0 <= i < |r| ==> r[i].productType == f.productType
  {
    Filter(products, PassesAll(f))
  }

  /** With every filter empty, the catalogue comes back whole and in
      order. */
  lemma NoFiltersKeepAll(products: seq<CatalogProduct>)
    ensures GetFilteredProducts(products, NoFilters) == products
  {
    FilterAll(products, PassesAll(NoFilters));
  }

  /** A bound that does not parse filters nothing out. */
  lemma UnparsableBoundIgnored(products: seq<CatalogProduct>, bound: string)
    requires ParseInt(bound).None?
    ensures GetFilteredProducts(products, NoFilters.(minPoints := bound)) == products
    ensures GetFilteredProducts(products, NoFilters.(maxPoints := bound)) == products
  {
    assert forall i :: 0 <= i < |products| ==> Passes(NoFilters.(minPoints := bound), products[i]);
    assert forall i :: 0 <= i < |products| ==> Passes(NoFilters.(maxPoints := bound), products[i]);
    FilterAll(products, PassesAll(NoFilters.(minPoints := bound)));
    FilterAll(products, PassesAll(NoFilters.(maxPoints := bound)));
  }

  /** A printed minimum keeps exactly the products costing at least that
      much. */
  lemma MinimumKeepsCostlyProducts(products: seq<CatalogProduct>, n: nat)
    ensures forall i :: 0 <= i < |products| ==>
      (products[i] in GetFilteredProducts(products, NoFilters.(minPoints := NatToString(n)))
       <==> products[i].pointsCost >= n)
  {
    ParsePrintedNat(n);
  }
}
