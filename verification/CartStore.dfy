// The cart tables: services/order/internal/db/repo.go, GetCart, AddCartItem, SetCartItem and ClearCart,
// one request at a time.
module CartStore {
  import opened Common
  import opened Machine

  datatype ItemRow = ItemRow(cartId: Uuid, productId: Uuid, quantity: Int32)

  /** `carts` maps a cart's id to its user, who has a unique index. Ids below `next` were handed out. */
  datatype Tables = Tables(carts: map<Uuid, string>, items: map<Uuid, ItemRow>, next: Uuid)

  // ---------- the statements ----------

  function CartsOf(t: Tables, user: string): set<Uuid> {
    set c | c in t.carts && t.carts[c] == user
  }

  function LinesOf(t: Tables, cart: Uuid, product: Uuid): set<Uuid> {
    set k | k in t.items && t.items[k].cartId == cart && t.items[k].productId == product
  }

  /** FirstOrCreate: the user's cart, inserted under `newId` when there is none. */
  function WithCart(t: Tables, user: string, newId: Uuid): Tables {
    if CartsOf(t, user) == {} then t.(carts := t.carts[newId := user], next := newId + 1) else t
  }

  ghost function CartOf(t: Tables, user: string): Uuid
    requires CartsOf(t, user) != {}
  {
    Least(CartsOf(t, user))
  }

  lemma WithCartHasOne(t: Tables, user: string, newId: Uuid)
    ensures CartsOf(WithCart(t, user, newId), user) != {}
  {
    if CartsOf(t, user) == {} {
      assert newId in CartsOf(WithCart(t, user, newId), user);
    }
  }

  /** AddCartItem: insert the line, or add to the quantity of the lowest one; SQL rejects an int4 overflow. */
  ghost function Added(t: Tables, user: string, product: Uuid, quantity: Int32, cartId: Uuid, itemId: Uuid): Tables {
    WithCartHasOne(t, user, cartId);
    var u := WithCart(t, user, cartId);
    AddedTo(u, CartOf(u, user), product, quantity, itemId)
  }

  ghost function AddedTo(u: Tables, cart: Uuid, product: Uuid, quantity: Int32, itemId: Uuid): Tables {
    if LinesOf(u, cart, product) == {} then
      u.(items := u.items[itemId := ItemRow(cart, product, quantity)], next := itemId + 1)
    else
      var k := Least(LinesOf(u, cart, product));
      if FitsInt32(u.items[k].quantity + quantity) then
        u.(items := u.items[k := u.items[k].(quantity := u.items[k].quantity + quantity)])
      else u
  }

  /** SetCartItem: delete the product's lines, or overwrite their quantity. */
  ghost function Replaced(t: Tables, user: string, product: Uuid, quantity: Int32, cartId: Uuid): Tables {
    WithCartHasOne(t, user, cartId);
    var u := WithCart(t, user, cartId);
    ReplacedIn(u, CartOf(u, user), product, quantity)
  }

  function ReplacedIn(u: Tables, cart: Uuid, product: Uuid, quantity: Int32): Tables {
    var lines := LinesOf(u, cart, product);
    u.(items := if quantity <= 0 then u.items - lines else Overwritten(u.items, lines, quantity))
  }

  function Overwritten(items: map<Uuid, ItemRow>, lines: set<Uuid>, quantity: Int32): map<Uuid, ItemRow> {
    map k | k in items :: if k in lines then items[k].(quantity := quantity) else items[k]
  }

  ghost function Cleared(t: Tables, user: string, cartId: Uuid): Tables {
    WithCartHasOne(t, user, cartId);
    var u := WithCart(t, user, cartId);
    ClearedIn(u, CartOf(u, user))
  }

  function ClearedIn(u: Tables, cart: Uuid): Tables {
    var dropped := set k | k in u.items && u.items[k].cartId == cart;
    u.(items := u.items - dropped)
  }

  // ---------- the invariant ----------

  predicate SameUser(t: Tables, c: Uuid, d: Uuid)
    requires c in t.carts && d in t.carts
  {
    t.carts[c] == t.carts[d]
  }

  predicate OneCartPerUser(t: Tables) {
    forall c, d :: c in t.carts && d in t.carts && SameUser(t, c, d) ==> c == d
  }

  predicate SameSlot(a: ItemRow, b: ItemRow) {
    a.cartId == b.cartId && a.productId == b.productId
  }

  predicate OneLinePerProduct(t: Tables) {
    forall j, k :: j in t.items && k in t.items && SameSlot(t.items[j], t.items[k]) ==> j == k
  }

  ghost predicate Inv(t: Tables) {
    && OneCartPerUser(t)
    && OneLinePerProduct(t)
    && (forall k :: k in t.items ==> t.items[k].cartId in t.carts && t.items[k].quantity >= 1 && k < t.next)
    && (forall c :: c in t.carts ==> c < t.next)
  }

  // ---------- the plain map ----------

  /** Whose line of which product. */
  datatype Line = Line(user: string, product: Uuid)

  type Contents = map<Line, Int32>

  function UserOf(t: Tables, cart: Uuid): string {
    if cart in t.carts then t.carts[cart] else ""
  }

  function LineOf(t: Tables, row: ItemRow): Line {
    Line(UserOf(t, row.cartId), row.productId)
  }

  ghost predicate HasLine(t: Tables, line: Line) {
    exists k :: k in t.items && LineOf(t, t.items[k]) == line
  }

  ghost predicate Says(t: Tables, m: Contents, k: Uuid)
    requires k in t.items
  {
    LineOf(t, t.items[k]) in m && m[LineOf(t, t.items[k])] == t.items[k].quantity
  }

  /** What the tables say: which user wants how many of which product. */
  ghost predicate Refines(t: Tables, m: Contents) {
    && (forall k {:trigger Says(t, m, k)} :: k in t.items ==> Says(t, m, k))
    && (forall line {:trigger HasLine(t, line)} :: line in m ==> HasLine(t, line))
  }

  function QuantityIn(m: Contents, line: Line): Int32 {
    if line in m then m[line] else 0
  }

  function MapAdd(m: Contents, line: Line, quantity: Int32): Contents {
    var sum := QuantityIn(m, line) + quantity;
    if FitsInt32(sum) then m[line := sum] else m
  }

  function MapSet(m: Contents, line: Line, quantity: Int32): Contents {
    if quantity <= 0 then m - {line} else if line in m then m[line := quantity] else m
  }

  function MapClear(m: Contents, user: string): Contents {
    map line | line in m && line.user != user :: m[line]
  }

  lemma RefinesValue(t: Tables, m: Contents, n: Contents, line: Line)
    requires Refines(t, m) && Refines(t, n) && line in m
    ensures line in n && n[line] == m[line]
  {
    assert HasLine(t, line);
    var k :| k in t.items && LineOf(t, t.items[k]) == line;
    assert Says(t, m, k) && Says(t, n, k);
  }

  /** The tables determine the map. */
  lemma RefinesUnique(t: Tables, m: Contents, n: Contents)
    requires Refines(t, m) && Refines(t, n)
    ensures m == n
  {
    forall line | line in m
      ensures line in n && n[line] == m[line]
    {
      RefinesValue(t, m, n, line);
    }
    forall line | line in n
      ensures line in m
    {
      RefinesValue(t, n, m, line);
    }
  }

  // ---------- each statement refines its map operation ----------

  /** Tables that agree on the lines refine the same map. */
  lemma SameLines(t: Tables, u: Tables, m: Contents)
    requires Refines(t, m) && u.items == t.items
    requires forall k :: k in t.items ==> LineOf(u, t.items[k]) == LineOf(t, t.items[k])
    ensures Refines(u, m)
  {
    forall k | k in u.items
      ensures Says(u, m, k)
    {
      assert Says(t, m, k);
    }
    forall line | line in m
      ensures HasLine(u, line)
    {
      assert HasLine(t, line);
      var k :| k in t.items && LineOf(t, t.items[k]) == line;
      assert LineOf(u, u.items[k]) == line;
    }
  }

  /** The cart a request works on, and that it is the user's only one. */
  ghost predicate IsCartOf(t: Tables, user: string, cart: Uuid) {
    cart in t.carts && t.carts[cart] == user && forall c :: c in t.carts && t.carts[c] == user ==> c == cart
  }

  lemma WithCartKeeps(t: Tables, user: string, newId: Uuid)
    requires Inv(t) && newId >= t.next
    ensures var u := WithCart(t, user, newId);
            && Inv(u) && u.items == t.items && t.next <= u.next <= newId + 1
            && CartsOf(u, user) != {} && IsCartOf(u, user, CartOf(u, user))
            && forall k :: k in t.items ==> LineOf(u, t.items[k]) == LineOf(t, t.items[k])
  {
    WithCartHasOne(t, user, newId);
    var u := WithCart(t, user, newId);
    assert CartOf(u, user) in CartsOf(u, user);
    if CartsOf(t, user) == {} {
      forall c | c in t.carts
        ensures t.carts[c] != user
      {
        assert c !in CartsOf(t, user);
      }
    }
  }

  lemma WithCartRefines(t: Tables, m: Contents, user: string, newId: Uuid)
    requires Inv(t) && Refines(t, m) && newId >= t.next
    ensures Refines(WithCart(t, user, newId), m)
  {
    WithCartKeeps(t, user, newId);
    SameLines(t, WithCart(t, user, newId), m);
  }

  /** Row `k` is, or may become, the one row of its cart and product. */
  ghost predicate Writable(t: Tables, k: Uuid, row: ItemRow) {
    && row.cartId in t.carts && row.quantity >= 1
    && (forall j :: j in t.items ==>
          (j == k <==> t.items[j].cartId == row.cartId && t.items[j].productId == row.productId))
  }

  lemma WriteKeepsInv(t: Tables, k: Uuid, row: ItemRow)
    requires Inv(t) && Writable(t, k, row) && k < t.next
    ensures Inv(t.(items := t.items[k := row]))
  {
  }

  /** A row of another cart or product is another line. */
  lemma LinesDiffer(t: Tables, k: Uuid, row: ItemRow, j: Uuid)
    requires Inv(t) && Writable(t, k, row) && j in t.items && j != k
    ensures LineOf(t, t.items[j]) != LineOf(t, row)
  {
    assert SameUser(t, t.items[j].cartId, row.cartId) ==> t.items[j].cartId == row.cartId;
  }

  /** Writing one quantity in the tables is writing it in the map. */
  lemma WriteRefines(t: Tables, m: Contents, k: Uuid, row: ItemRow)
    requires Inv(t) && Refines(t, m) && Writable(t, k, row)
    ensures Refines(t.(items := t.items[k := row]), m[LineOf(t, row) := row.quantity])
  {
    var u := t.(items := t.items[k := row]);
    var n := m[LineOf(t, row) := row.quantity];
    forall j | j in u.items
      ensures Says(u, n, j)
    {
      if j != k {
        assert Says(t, m, j);
        LinesDiffer(t, k, row, j);
      }
    }
    forall line | line in n
      ensures HasLine(u, line)
    {
      WriteHasLine(t, m, k, row, line);
    }
  }

  lemma WriteHasLine(t: Tables, m: Contents, k: Uuid, row: ItemRow, line: Line)
    requires Inv(t) && Refines(t, m) && Writable(t, k, row)
    requires line == LineOf(t, row) || line in m
    ensures HasLine(t.(items := t.items[k := row]), line)
  {
    var u := t.(items := t.items[k := row]);
    if line == LineOf(t, row) {
      assert LineOf(u, u.items[k]) == line;
    } else {
      assert HasLine(t, line);
      var j :| j in t.items && LineOf(t, t.items[j]) == line;
      assert LineOf(u, u.items[j]) == line;
    }
  }

  /** Deleting the rows of the lines a smaller map no longer holds. */
  lemma DropRefines(t: Tables, m: Contents, dropped: set<Uuid>, n: Contents)
    requires Inv(t) && Refines(t, m)
    requires forall line :: line in n ==> line in m && n[line] == m[line]
    requires forall k :: k in t.items ==> (k in dropped <==> LineOf(t, t.items[k]) !in n)
    ensures Inv(t.(items := t.items - dropped)) && Refines(t.(items := t.items - dropped), n)
  {
    var u := t.(items := t.items - dropped);
    forall k | k in u.items
      ensures Says(u, n, k)
    {
      assert Says(t, m, k);
    }
    forall line | line in n
      ensures HasLine(u, line)
    {
      assert HasLine(t, line);
      var k :| k in t.items && LineOf(t, t.items[k]) == line;
      assert LineOf(u, u.items[k]) == line;
    }
  }

  /** The rows of a product in a user's cart are what the map says about them. */
  lemma LinesMeaning(t: Tables, m: Contents, user: string, cart: Uuid, product: Uuid)
    requires Inv(t) && Refines(t, m) && IsCartOf(t, user, cart)
    ensures LinesOf(t, cart, product) == {} <==> Line(user, product) !in m
    ensures forall k :: k in t.items ==>
                          (k in LinesOf(t, cart, product) <==> LineOf(t, t.items[k]) == Line(user, product))
    ensures forall k :: k in LinesOf(t, cart, product) ==>
                          LinesOf(t, cart, product) == {k} && t.items[k].quantity == QuantityIn(m, Line(user, product))
  {
    var line := Line(user, product);
    if line in m {
      assert HasLine(t, line);
      var k :| k in t.items && LineOf(t, t.items[k]) == line;
      assert k in LinesOf(t, cart, product);
    }
    forall k | k in LinesOf(t, cart, product)
      ensures LinesOf(t, cart, product) == {k} && t.items[k].quantity == QuantityIn(m, line) && line in m
    {
      assert Says(t, m, k);
    }
    if LinesOf(t, cart, product) != {} {
      var k :| k in LinesOf(t, cart, product);
    }
  }

  /** Every line of a cart and product is in LinesOf, so a singleton tells which row to write. */
  lemma LinesWritable(t: Tables, cart: Uuid, product: Uuid, k: Uuid, quantity: Int32)
    requires Inv(t) && cart in t.carts && quantity >= 1
    requires LinesOf(t, cart, product) == {k} || (LinesOf(t, cart, product) == {} && k !in t.items)
    ensures Writable(t, k, ItemRow(cart, product, quantity))
  {
    forall j | j in t.items
      ensures j == k <==> t.items[j].cartId == cart && t.items[j].productId == product
    {
      assert j in LinesOf(t, cart, product) <==> t.items[j].cartId == cart && t.items[j].productId == product;
    }
  }

  /** Writing a user's line of a product, new or present. */
  lemma WriteLine(t: Tables, m: Contents, user: string, cart: Uuid, product: Uuid, k: Uuid, quantity: Int32)
    requires Inv(t) && Refines(t, m) && IsCartOf(t, user, cart) && quantity >= 1
    requires LinesOf(t, cart, product) == {k} || (LinesOf(t, cart, product) == {} && k !in t.items)
    ensures Refines(t.(items := t.items[k := ItemRow(cart, product, quantity)]), m[Line(user, product) := quantity])
  {
    LinesWritable(t, cart, product, k, quantity);
    WriteRefines(t, m, k, ItemRow(cart, product, quantity));
  }

  lemma WriteLineKeepsInv(t: Tables, cart: Uuid, product: Uuid, k: Uuid, quantity: Int32)
    requires Inv(t) && cart in t.carts && quantity >= 1 && k < t.next
    requires LinesOf(t, cart, product) == {k} || (LinesOf(t, cart, product) == {} && k !in t.items)
    ensures Inv(t.(items := t.items[k := ItemRow(cart, product, quantity)]))
  {
    LinesWritable(t, cart, product, k, quantity);
    WriteKeepsInv(t, k, ItemRow(cart, product, quantity));
  }

  lemma AddRefines(t: Tables, m: Contents, user: string, product: Uuid, quantity: Int32, cartId: Uuid, itemId: Uuid)
    requires Inv(t) && Refines(t, m) && quantity >= 1 && t.next <= cartId < itemId
    ensures var u := Added(t, user, product, quantity, cartId, itemId);
            Inv(u) && Refines(u, MapAdd(m, Line(user, product), quantity)) && t.next <= u.next <= itemId + 1
  {
    WithCartKeeps(t, user, cartId);
    WithCartRefines(t, m, user, cartId);
    var u := WithCart(t, user, cartId);
    AddedToKeepsInv(u, CartOf(u, user), product, quantity, itemId);
    AddedToRefines(u, m, user, CartOf(u, user), product, quantity, itemId);
    AddedToFrame(u, user, CartOf(u, user), product, quantity, itemId);
  }

  lemma AddedToKeepsInv(u: Tables, cart: Uuid, product: Uuid, quantity: Int32, itemId: Uuid)
    requires Inv(u) && cart in u.carts && quantity >= 1 && u.next <= itemId
    ensures Inv(AddedTo(u, cart, product, quantity, itemId))
  {
    if LinesOf(u, cart, product) == {} {
      var w := u.(next := itemId + 1);
      WriteLineKeepsInv(w, cart, product, itemId, quantity);
    } else {
      var k := TheLine(u, cart, product);
      var sum := u.items[k].quantity + quantity;
      if FitsInt32(sum) {
        WriteLineKeepsInv(u, cart, product, k, sum);
        assert u.items[k].(quantity := sum) == ItemRow(cart, product, sum);
      }
    }
  }

  lemma AddedToRefines(u: Tables, m: Contents, user: string, cart: Uuid, product: Uuid, quantity: Int32, itemId: Uuid)
    requires Inv(u) && Refines(u, m) && IsCartOf(u, user, cart) && quantity >= 1 && u.next <= itemId
    ensures Refines(AddedTo(u, cart, product, quantity, itemId), MapAdd(m, Line(user, product), quantity))
  {
    LineQuantity(u, m, user, cart, product);
    if LinesOf(u, cart, product) == {} {
      InsertRefines(u, m, user, cart, product, quantity, itemId);
    } else {
      IncreaseRefines(u, m, user, cart, product, quantity, itemId);
    }
  }

  /** What else an addition does: the cart stays the user's, and at most one id is handed out. */
  lemma AddedToFrame(u: Tables, user: string, cart: Uuid, product: Uuid, quantity: Int32, itemId: Uuid)
    requires IsCartOf(u, user, cart) && u.next <= itemId
    ensures IsCartOf(AddedTo(u, cart, product, quantity, itemId), user, cart)
    ensures u.next <= AddedTo(u, cart, product, quantity, itemId).next <= itemId + 1
  {
  }

  /** The line an addition finds says what the map says. */
  lemma LineQuantity(u: Tables, m: Contents, user: string, cart: Uuid, product: Uuid)
    requires Inv(u) && Refines(u, m) && IsCartOf(u, user, cart)
    ensures LinesOf(u, cart, product) != {} ==>
              u.items[Least(LinesOf(u, cart, product))].quantity == QuantityIn(m, Line(user, product))
    ensures LinesOf(u, cart, product) == {} ==> QuantityIn(m, Line(user, product)) == 0
  {
    LinesMeaning(u, m, user, cart, product);
  }

  /** SQL accepts the sum exactly when the map does. */
  lemma AdditionFits(u: Tables, m: Contents, user: string, cart: Uuid, product: Uuid, quantity: Int32)
    requires Inv(u) && Refines(u, m) && IsCartOf(u, user, cart)
    ensures var lines := LinesOf(u, cart, product);
            (lines == {} || FitsInt32(u.items[Least(lines)].quantity + quantity)) <==>
            FitsInt32(QuantityIn(m, Line(user, product)) + quantity)
  {
    LineQuantity(u, m, user, cart, product);
  }

  lemma InsertRefines(u: Tables, m: Contents, user: string, cart: Uuid, product: Uuid, quantity: Int32, itemId: Uuid)
    requires Inv(u) && Refines(u, m) && IsCartOf(u, user, cart) && quantity >= 1 && u.next <= itemId
    requires LinesOf(u, cart, product) == {} && QuantityIn(m, Line(user, product)) == 0
    ensures Refines(AddedTo(u, cart, product, quantity, itemId), MapAdd(m, Line(user, product), quantity))
  {
    var v := u.(items := u.items[itemId := ItemRow(cart, product, quantity)]);
    WriteLine(u, m, user, cart, product, itemId, quantity);
    SameLines(v, v.(next := itemId + 1), m[Line(user, product) := quantity]);
  }

  lemma IncreaseRefines(u: Tables, m: Contents, user: string, cart: Uuid, product: Uuid, quantity: Int32, itemId: Uuid)
    requires Inv(u) && Refines(u, m) && IsCartOf(u, user, cart) && quantity >= 1
    requires LinesOf(u, cart, product) != {}
    requires u.items[Least(LinesOf(u, cart, product))].quantity == QuantityIn(m, Line(user, product))
    ensures Refines(AddedTo(u, cart, product, quantity, itemId), MapAdd(m, Line(user, product), quantity))
  {
    var k := TheLine(u, cart, product);
    var sum := u.items[k].quantity + quantity;
    if FitsInt32(sum) {
      WriteLine(u, m, user, cart, product, k, sum);
      assert u.items[k].(quantity := sum) == ItemRow(cart, product, sum);
    }
  }

  /** The one line of a product, which the lowest-id rule picks. */
  lemma TheLine(u: Tables, cart: Uuid, product: Uuid) returns (k: Uuid)
    requires Inv(u) && LinesOf(u, cart, product) != {}
    ensures LinesOf(u, cart, product) == {k} && k == Least(LinesOf(u, cart, product))
    ensures k in u.items && k < u.next
    ensures u.items[k].quantity >= 1 && u.items[k] == ItemRow(cart, product, u.items[k].quantity)
  {
    k := Least(LinesOf(u, cart, product));
    assert k in LinesOf(u, cart, product);
    forall j | j in LinesOf(u, cart, product)
      ensures j == k
    {
      assert SameSlot(u.items[j], u.items[k]);
    }
  }

  lemma SetRefines(t: Tables, m: Contents, user: string, product: Uuid, quantity: Int32, cartId: Uuid)
    requires Inv(t) && Refines(t, m) && t.next <= cartId
    ensures var u := Replaced(t, user, product, quantity, cartId);
            Inv(u) && Refines(u, MapSet(m, Line(user, product), quantity)) && t.next <= u.next <= cartId + 1
  {
    WithCartKeeps(t, user, cartId);
    WithCartRefines(t, m, user, cartId);
    var u := WithCart(t, user, cartId);
    ReplacedInRefines(u, m, user, CartOf(u, user), product, quantity);
  }

  lemma ReplacedInRefines(u: Tables, m: Contents, user: string, cart: Uuid, product: Uuid, quantity: Int32)
    requires Inv(u) && Refines(u, m) && IsCartOf(u, user, cart)
    ensures var v := ReplacedIn(u, cart, product, quantity);
            Inv(v) && Refines(v, MapSet(m, Line(user, product), quantity))
    ensures LinesOf(u, cart, product) != {} <==> Line(user, product) in m
  {
    LinesMeaning(u, m, user, cart, product);
    if quantity <= 0 {
      DeleteRefines(u, m, user, cart, product);
    } else {
      OverwriteRefines(u, m, user, cart, product, quantity);
    }
  }

  lemma DeleteRefines(u: Tables, m: Contents, user: string, cart: Uuid, product: Uuid)
    requires Inv(u) && Refines(u, m) && IsCartOf(u, user, cart)
    ensures var v := u.(items := u.items - LinesOf(u, cart, product));
            Inv(v) && Refines(v, m - {Line(user, product)})
  {
    LinesMeaning(u, m, user, cart, product);
    forall k | k in u.items
      ensures k in LinesOf(u, cart, product) <==> LineOf(u, u.items[k]) !in m - {Line(user, product)}
    {
      assert Says(u, m, k);
    }
    DropRefines(u, m, LinesOf(u, cart, product), m - {Line(user, product)});
  }

  lemma OverwriteRefines(u: Tables, m: Contents, user: string, cart: Uuid, product: Uuid, quantity: Int32)
    requires Inv(u) && Refines(u, m) && IsCartOf(u, user, cart) && quantity >= 1
    ensures var v := u.(items := Overwritten(u.items, LinesOf(u, cart, product), quantity));
            Inv(v) && Refines(v, MapSet(m, Line(user, product), quantity))
  {
    LinesMeaning(u, m, user, cart, product);
    var lines := LinesOf(u, cart, product);
    if lines == {} {
      assert Overwritten(u.items, lines, quantity) == u.items;
    } else {
      var k :| k in lines;
      assert Overwritten(u.items, lines, quantity) == u.items[k := ItemRow(cart, product, quantity)];
      WriteLineKeepsInv(u, cart, product, k, quantity);
      WriteLine(u, m, user, cart, product, k, quantity);
    }
  }

  lemma ClearRefines(t: Tables, m: Contents, user: string, cartId: Uuid)
    requires Inv(t) && Refines(t, m) && t.next <= cartId
    ensures var u := Cleared(t, user, cartId);
            Inv(u) && Refines(u, MapClear(m, user)) && t.next <= u.next <= cartId + 1
  {
    WithCartKeeps(t, user, cartId);
    WithCartRefines(t, m, user, cartId);
    var u := WithCart(t, user, cartId);
    ClearedInRefines(u, m, user, CartOf(u, user));
  }

  lemma ClearedInRefines(u: Tables, m: Contents, user: string, cart: Uuid)
    requires Inv(u) && Refines(u, m) && IsCartOf(u, user, cart)
    ensures Inv(ClearedIn(u, cart)) && Refines(ClearedIn(u, cart), MapClear(m, user))
  {
    var dropped := set k | k in u.items && u.items[k].cartId == cart;
    forall k | k in u.items
      ensures k in dropped <==> LineOf(u, u.items[k]) !in MapClear(m, user)
    {
      assert Says(u, m, k);
    }
    DropRefines(u, m, dropped, MapClear(m, user));
  }

  // ---------- runs of requests ----------

  /** A request that reaches the tables; `Touch` is a read, or one whose later statements failed. */
  datatype Request =
    | Add(user: string, product: Uuid, quantity: Int32, cartId: Uuid, itemId: Uuid)
    | Set(user: string, product: Uuid, quantity: Int32, cartId: Uuid)
    | Clear(user: string, cartId: Uuid)
    | Touch(user: string, cartId: Uuid)

  /** The service rejects an addition of less than one; ids must be fresh. */
  predicate Enabled(t: Tables, r: Request) {
    r.cartId >= t.next && (r.Add? ==> r.quantity >= 1 && r.itemId > r.cartId)
  }

  ghost function Apply(t: Tables, r: Request): Tables {
    if !Enabled(t, r) then t
    else
      match r
      case Add(user, product, quantity, cartId, itemId) => Added(t, user, product, quantity, cartId, itemId)
      case Set(user, product, quantity, cartId) => Replaced(t, user, product, quantity, cartId)
      case Clear(user, cartId) => Cleared(t, user, cartId)
      case Touch(user, cartId) => WithCart(t, user, cartId)
  }

  ghost function Run(t: Tables, rs: seq<Request>): Tables {
    if rs == [] then t else Apply(Run(t, rs[..|rs| - 1]), rs[|rs| - 1])
  }

  function MapApply(m: Contents, r: Request): Contents {
    match r
    case Add(user, product, quantity, _, _) => MapAdd(m, Line(user, product), quantity)
    case Set(user, product, quantity, _) => MapSet(m, Line(user, product), quantity)
    case Clear(user, _) => MapClear(m, user)
    case Touch(_, _) => m
  }

  /** The map after the requests that were enabled. */
  ghost function MapRun(t: Tables, m: Contents, rs: seq<Request>): Contents {
    if rs == [] then m
    else
      var before := MapRun(t, m, rs[..|rs| - 1]);
      if Enabled(Run(t, rs[..|rs| - 1]), rs[|rs| - 1]) then MapApply(before, rs[|rs| - 1]) else before
  }

  const EMPTY := Tables(map[], map[], 0)

  lemma ApplyRefines(t: Tables, m: Contents, r: Request)
    requires Inv(t) && Refines(t, m) && Enabled(t, r)
    ensures Inv(Apply(t, r)) && Refines(Apply(t, r), MapApply(m, r))
  {
    match r
    case Add(user, product, quantity, cartId, itemId) => AddRefines(t, m, user, product, quantity, cartId, itemId);
    case Set(user, product, quantity, cartId) => SetRefines(t, m, user, product, quantity, cartId);
    case Clear(user, cartId) => ClearRefines(t, m, user, cartId);
    case Touch(user, cartId) => WithCartKeeps(t, user, cartId); WithCartRefines(t, m, user, cartId);
  }

  /**
   * Over every run of requests from empty tables there is one cart per user and one line per product,
   * every quantity is at least one and an int32, and the tables say exactly what the plain map says.
   */
  lemma {:induction false} CartRefinesMap(rs: seq<Request>)
    ensures Inv(Run(EMPTY, rs))
    ensures Refines(Run(EMPTY, rs), MapRun(EMPTY, map[], rs))
  {
    if rs != [] {
      var last := |rs| - 1;
      CartRefinesMap(rs[..last]);
      var t := Run(EMPTY, rs[..last]);
      if Enabled(t, rs[last]) {
        ApplyRefines(t, MapRun(EMPTY, map[], rs[..last]), rs[last]);
      }
    }
  }

  // ---------- the repository ----------

  /** A cart line as it is read: the product and its quantity. */
  datatype CartLine = CartLine(product: Uuid, quantity: Int32)

  /** `lines` are the user's lines, each once; the query fixes no order. */
  ghost predicate Lists(m: Contents, user: string, lines: seq<CartLine>) {
    && (forall i :: 0 <= i < |lines| ==>
          Line(user, lines[i].product) in m && m[Line(user, lines[i].product)] == lines[i].quantity)
    && (forall i, j :: 0 <= i < j < |lines| ==> lines[i].product != lines[j].product)
    && (forall line :: line in m && line.user == user ==> Listed(lines, line.product))
  }

  ghost predicate Listed(lines: seq<CartLine>, product: Uuid) {
    exists i :: 0 <= i < |lines| && lines[i].product == product
  }

  /** While a cart is read: `lines` are the rows already returned, `rest` the ones to come. */
  ghost predicate ReadSoFar(t: Tables, cart: Uuid, lines: seq<CartLine>, rest: set<Uuid>) {
    && (forall k :: k in rest ==> k in t.items && t.items[k].cartId == cart)
    && (forall i, j :: 0 <= i < j < |lines| ==> lines[i].product != lines[j].product)
    && (forall i :: 0 <= i < |lines| ==> Shown(t, cart, lines[i], rest))
    && (forall k :: k in t.items && t.items[k].cartId == cart && k !in rest ==> Listed(lines, t.items[k].productId))
  }

  predicate Shows(t: Tables, cart: Uuid, k: Uuid, line: CartLine)
    requires k in t.items
  {
    t.items[k] == ItemRow(cart, line.product, line.quantity)
  }

  ghost predicate Shown(t: Tables, cart: Uuid, line: CartLine, rest: set<Uuid>) {
    exists k :: k in t.items && k !in rest && Shows(t, cart, k, line)
  }

  lemma ReadNext(t: Tables, cart: Uuid, lines: seq<CartLine>, rest: set<Uuid>, k: Uuid)
    requires OneLinePerProduct(t) && ReadSoFar(t, cart, lines, rest) && k in rest
    ensures ReadSoFar(t, cart, lines + [CartLine(t.items[k].productId, t.items[k].quantity)], rest - {k})
  {
    var line := CartLine(t.items[k].productId, t.items[k].quantity);
    var lines' := lines + [line];
    assert Shows(t, cart, k, line);
    forall i | 0 <= i < |lines|
      ensures lines[i].product != line.product
    {
      assert Shown(t, cart, lines[i], rest);
      var j :| j in t.items && j !in rest && Shows(t, cart, j, lines[i]);
      assert j != k;
    }
    forall i | 0 <= i < |lines'|
      ensures Shown(t, cart, lines'[i], rest - {k})
    {
      if i < |lines| {
        assert Shown(t, cart, lines[i], rest);
        var j :| j in t.items && j !in rest && Shows(t, cart, j, lines[i]);
        assert Shows(t, cart, j, lines'[i]);
      }
    }
    forall j | j in t.items && t.items[j].cartId == cart && j !in rest - {k}
      ensures Listed(lines', t.items[j].productId)
    {
      if j == k {
        assert lines'[|lines|].product == t.items[j].productId;
      } else {
        var i :| 0 <= i < |lines| && lines[i].product == t.items[j].productId;
        assert lines'[i].product == t.items[j].productId;
      }
    }
  }

  lemma ReadAll(t: Tables, m: Contents, user: string, cart: Uuid, lines: seq<CartLine>)
    requires Inv(t) && Refines(t, m) && IsCartOf(t, user, cart) && ReadSoFar(t, cart, lines, {})
    ensures Lists(m, user, lines)
  {
    forall i | 0 <= i < |lines|
      ensures Line(user, lines[i].product) in m && m[Line(user, lines[i].product)] == lines[i].quantity
    {
      assert Shown(t, cart, lines[i], {});
      var k :| k in t.items && k !in {} && Shows(t, cart, k, lines[i]);
      assert Says(t, m, k);
    }
    forall line | line in m && line.user == user
      ensures Listed(lines, line.product)
    {
      assert HasLine(t, line);
      var k :| k in t.items && LineOf(t, t.items[k]) == line;
      assert t.items[k].cartId == cart;
    }
  }

  /** Which statements of a request fail: finding or creating the cart, the write, or the final read. */
  datatype Faults = Faults(cart: bool, write: bool, reload: bool)

  class CartRepo {
    var carts: map<Uuid, string>
    var items: map<Uuid, ItemRow>
    ghost var nextId: Uuid
    ghost var contents: Contents

    ghost function State(): Tables
      reads this
    {
      Tables(carts, items, nextId)
    }

    ghost predicate Valid()
      reads this
    {
      Inv(State()) && Refines(State(), contents)
    }

    constructor ()
      ensures Valid() && contents == map[]
    {
      carts, items, nextId, contents := map[], map[], 0, map[];
    }

    /** The statements of FirstOrCreate on the user's cart. */
    method FirstCart(user: string, cartId: Uuid) returns (cart: Uuid)
      modifies this`carts, this`nextId
      ensures State() == WithCart(old(State()), user, cartId)
      ensures CartsOf(State(), user) != {} && cart == CartOf(State(), user)
    {
      WithCartHasOne(State(), user, cartId);
      var mine := set c | c in carts && carts[c] == user;
      assert mine == CartsOf(State(), user);
      if mine == {} {
        carts := carts[cartId := user];
        nextId := cartId + 1;
        assert CartsOf(State(), user) == {cartId};
        return cartId;
      }
      LeastExists(mine);
      var c :| c in mine && forall d :: d in mine ==> c <= d;
      cart := c;
    }

    method FindOrCreateCart(user: string, cartId: Uuid) returns (cart: Uuid)
      requires Valid() && cartId >= nextId
      modifies this
      ensures Valid() && contents == old(contents) && nextId <= cartId + 1
      ensures IsCartOf(State(), user, cart)
    {
      WithCartKeeps(State(), user, cartId);
      WithCartRefines(State(), contents, user, cartId);
      cart := FirstCart(user, cartId);
    }

    /** Reads the lines in whatever order the database returns them. */
    method ReadLines(user: string, cart: Uuid) returns (lines: seq<CartLine>)
      requires Valid() && IsCartOf(State(), user, cart)
      ensures Lists(contents, user, lines)
    {
      lines := [];
      var rest := set k | k in items && items[k].cartId == cart;
      while rest != {}
        invariant ReadSoFar(State(), cart, lines, rest)
        decreases rest
      {
        var k :| k in rest;
        ReadNext(State(), cart, lines, rest, k);
        lines := lines + [CartLine(items[k].productId, items[k].quantity)];
        rest := rest - {k};
      }
      ReadAll(State(), contents, user, cart, lines);
    }

    method GetCart(user: string, cartId: Uuid, faults: Faults) returns (r: Option<seq<CartLine>>)
      requires Valid() && cartId >= nextId
      modifies this
      ensures Valid() && contents == old(contents) && nextId <= cartId + 1
      ensures r.Some? <==> !faults.cart
      ensures r.Some? ==> Lists(contents, user, r.value)
    {
      if faults.cart {
        return None;
      }
      var cart := FindOrCreateCart(user, cartId);
      var lines := ReadLines(user, cart);
      r := Some(lines);
    }

    /** Inserts the line or adds to it; false when SQL rejects the sum. */
    method WriteAddition(cart: Uuid, product: Uuid, quantity: Int32, itemId: Uuid) returns (ok: bool)
      modifies this`items, this`nextId
      ensures State() == AddedTo(old(State()), cart, product, quantity, itemId)
      ensures var lines := LinesOf(old(State()), cart, product);
              ok <==> lines == {} || FitsInt32(old(items)[Least(lines)].quantity + quantity)
    {
      var lines := set k | k in items && items[k].cartId == cart && items[k].productId == product;
      assert lines == LinesOf(State(), cart, product);
      if lines == {} {
        items := items[itemId := ItemRow(cart, product, quantity)];
        nextId := itemId + 1;
        return true;
      }
      LeastExists(lines);
      var k :| k in lines && forall j :: j in lines ==> k <= j;
      assert k == Least(lines);
      if !FitsInt32(items[k].quantity + quantity) {
        return false;
      }
      items := items[k := items[k].(quantity := items[k].quantity + quantity)];
      ok := true;
    }

    method AddLine(user: string, cart: Uuid, product: Uuid, quantity: Int32, itemId: Uuid) returns (ok: bool)
      requires Valid() && IsCartOf(State(), user, cart) && quantity >= 1 && nextId <= itemId
      modifies this
      ensures Valid() && IsCartOf(State(), user, cart) && nextId <= itemId + 1
      ensures ok <==> FitsInt32(QuantityIn(old(contents), Line(user, product)) + quantity)
      ensures contents == MapAdd(old(contents), Line(user, product), quantity)
    {
      ghost var after := AddedTo(State(), cart, product, quantity, itemId);
      AddedToKeepsInv(State(), cart, product, quantity, itemId);
      AddedToRefines(State(), contents, user, cart, product, quantity, itemId);
      AddedToFrame(State(), user, cart, product, quantity, itemId);
      AdditionFits(State(), contents, user, cart, product, quantity);
      ok := WriteAddition(cart, product, quantity, itemId);
      assert State() == after;
      contents := MapAdd(contents, Line(user, product), quantity);
    }

    /** The service has already rejected quantities below one. */
    method AddCartItem(user: string, product: Uuid, quantity: Int32, cartId: Uuid, itemId: Uuid, faults: Faults)
      returns (r: Option<seq<CartLine>>)
      requires Valid() && nextId <= cartId < itemId && quantity >= 1
      modifies this
      ensures Valid() && nextId <= itemId + 1
      ensures var applied := !faults.cart && !faults.write &&
                             FitsInt32(QuantityIn(old(contents), Line(user, product)) + quantity);
              && contents == (if applied then MapAdd(old(contents), Line(user, product), quantity) else old(contents))
              && (r.Some? <==> applied && !faults.reload)
              && (r.Some? ==> Lists(contents, user, r.value))
    {
      if faults.cart {
        return None;
      }
      var cart := FindOrCreateCart(user, cartId);
      if faults.write {
        return None;
      }
      var ok := AddLine(user, cart, product, quantity, itemId);
      if !ok || faults.reload {
        return None;
      }
      var reread := ReadLines(user, cart);
      r := Some(reread);
    }

    /** Deletes or overwrites the product's lines; false when there are none. */
    method WriteQuantity(cart: Uuid, product: Uuid, quantity: Int32) returns (found: bool)
      modifies this`items
      ensures State() == ReplacedIn(old(State()), cart, product, quantity)
      ensures found <==> LinesOf(old(State()), cart, product) != {}
    {
      var lines := set k | k in items && items[k].cartId == cart && items[k].productId == product;
      assert lines == LinesOf(State(), cart, product);
      if quantity <= 0 {
        items := items - lines;
      } else {
        items := Overwritten(items, lines, quantity);
      }
      found := lines != {};
    }

    method SetLine(user: string, cart: Uuid, product: Uuid, quantity: Int32) returns (found: bool)
      requires Valid() && IsCartOf(State(), user, cart)
      modifies this`items, this`contents
      ensures Valid()
      ensures found <==> Line(user, product) in old(contents)
      ensures contents == MapSet(old(contents), Line(user, product), quantity)
    {
      ReplacedInRefines(State(), contents, user, cart, product, quantity);
      found := WriteQuantity(cart, product, quantity);
      contents := MapSet(contents, Line(user, product), quantity);
    }

    /** None when a statement failed; otherwise whether the product was in the cart. */
    method SetCartItem(user: string, product: Uuid, quantity: Int32, cartId: Uuid, faults: Faults)
      returns (r: Option<bool>)
      requires Valid() && nextId <= cartId
      modifies this
      ensures Valid() && nextId <= cartId + 1
      ensures r == if faults.cart || faults.write then None else Some(Line(user, product) in old(contents))
      ensures contents == if r.None? then old(contents) else MapSet(old(contents), Line(user, product), quantity)
    {
      if faults.cart {
        return None;
      }
      var cart := FindOrCreateCart(user, cartId);
      if faults.write {
        return None;
      }
      var found := SetLine(user, cart, product, quantity);
      r := Some(found);
    }

    method DeleteLines(cart: Uuid)
      modifies this`items
      ensures State() == ClearedIn(old(State()), cart)
    {
      var mine := set k | k in items && items[k].cartId == cart;
      items := items - mine;
    }

    method ClearLines(user: string, cart: Uuid)
      requires Valid() && IsCartOf(State(), user, cart)
      modifies this`items, this`contents
      ensures Valid()
      ensures contents == MapClear(old(contents), user)
    {
      ClearedInRefines(State(), contents, user, cart);
      DeleteLines(cart);
      contents := MapClear(contents, user);
    }

    method ClearCart(user: string, cartId: Uuid, faults: Faults) returns (ok: bool)
      requires Valid() && nextId <= cartId
      modifies this
      ensures Valid() && nextId <= cartId + 1
      ensures ok == (!faults.cart && !faults.write)
      ensures contents == if ok then MapClear(old(contents), user) else old(contents)
    {
      if faults.cart {
        return false;
      }
      var cart := FindOrCreateCart(user, cartId);
      if faults.write {
        return false;
      }
      ClearLines(user, cart);
      ok := true;
    }
  }
}
