/**
  The rows the test-data generator inserts (generate_test_data.py, `create_test_database`):
  50 users, 19 categories, 70 products, 100 orders and their order items. Every
  `random.*` draw and every date string is passed in; prices are values of an opaque type
  `P`. The row lists are built by loops that append, as in the generator, and each is
  proved equal to a row-by-row definition whose keys and references are then proved.
 */
module TestData {
  import opened Wrappers
  import opened PyStr

  const USER_COUNT := 50
  const ORDER_COUNT := 100
  const PRODUCT_COUNT := 70

  /** A row of `users`. */
  datatype UserRow = UserRow(id: int, username: string, email: string, passwordHash: string,
                             registrationDate: string, lastLogin: string, isActive: int)

  /** A row of `categories`; `None` stands for a NULL `parent_id`. */
  datatype CategoryRow = CategoryRow(id: int, name: string, description: string, parentId: Option<int>)

  /** A row of `products`, with its price kept opaque. */
  datatype ProductRow<P> = ProductRow(id: int, name: string, description: string, price: P,
                                      categoryId: int, stockQuantity: int, createdAt: string)

  /** A row of `orders` as inserted; its total is the placeholder `0` written before the totals are updated. */
  datatype OrderRow = OrderRow(id: int, userId: int, orderDate: string, totalAmount: int, status: string)

  /** A row of `order_items`. */
  datatype OrderItemRow<P> = OrderItemRow(id: int, orderId: int, productId: int, quantity: int, pricePerUnit: P)

  /** The draws for one order item: `random.randint(1, len(products))` and `random.randint(1, 5)`. */
  datatype ItemDraw = ItemDraw(productId: int, quantity: int)

  /** The ids of the rows of a table are 1, 2, 3, ... in row order. */
  predicate Consecutive(ids: seq<int>) {
    forall i | 0 <= i < |ids| :: ids[i] == i + 1
  }

  /** In a table numbered 1, 2, 3, ..., exactly the ids 1..n exist. */
  lemma {:induction false} ConsecutiveContains(ids: seq<int>, x: int)
    requires Consecutive(ids)
    ensures x in ids <==> 1 <= x <= |ids|
  {
    if 1 <= x <= |ids| {
      assert ids[x - 1] == x;
    }
  }

  // ---------------------------------------------------------------- users

  /** `"user" + str(k)`. */
  function Username(k: nat): string {
    "user" + DecimalString(k)
  }

  /** `f"user{k}@example.com"`. */
  function Email(k: nat): string {
    "user" + DecimalString(k) + "@example.com"
  }

  /** `["user" + str(i) for i in range(1, 51)]`. */
  function Usernames(): seq<string> {
    seq(USER_COUNT, i requires 0 <= i < USER_COUNT => Username(i + 1))
  }

  /** `[f"user{i}@example.com" for i in range(1, 51)]`. */
  function Emails(): seq<string> {
    seq(USER_COUNT, i requires 0 <= i < USER_COUNT => Email(i + 1))
  }

  /** Different users get different names. */
  lemma {:induction false} UsernameInjective(a: nat, b: nat)
    requires Username(a) == Username(b)
    ensures a == b
  {
    assert Username(a)[4..] == DecimalString(a);
    assert Username(b)[4..] == DecimalString(b);
    DecimalStringInjective(a, b);
  }

  /** `"hash_" + str(random.randint(10000, 99999))`, one per user, from the given draws. */
  function PasswordHashes(draws: seq<nat>): seq<string> {
    seq(|draws|, i requires 0 <= i < |draws| => "hash_" + DecimalString(draws[i]))
  }

  /** The user rows, row by row: row `i` has id `i + 1` and the `i`-th entry of every list. */
  function UserRows(hashDraws: seq<nat>, registrationDates: seq<string>, lastLogins: seq<string>,
                    isActives: seq<int>): seq<UserRow>
    requires |hashDraws| == USER_COUNT && |registrationDates| == USER_COUNT
    requires |lastLogins| == USER_COUNT && |isActives| == USER_COUNT
  {
    seq(USER_COUNT, i requires 0 <= i < USER_COUNT =>
      UserRow(i + 1, Usernames()[i], Emails()[i], PasswordHashes(hashDraws)[i],
              registrationDates[i], lastLogins[i], isActives[i]))
  }

  /** `users_data`, built by the generator's `for i in range(50)` loop. */
  method BuildUsers(hashDraws: seq<nat>, registrationDates: seq<string>, lastLogins: seq<string>,
                    isActives: seq<int>) returns (usersData: seq<UserRow>)
    requires |hashDraws| == USER_COUNT && |registrationDates| == USER_COUNT
    requires |lastLogins| == USER_COUNT && |isActives| == USER_COUNT
    ensures usersData == UserRows(hashDraws, registrationDates, lastLogins, isActives)
  {
    var usernames := Usernames();
    var emails := Emails();
    var passwordHashes := PasswordHashes(hashDraws);
    usersData := [];
    for i := 0 to USER_COUNT
      invariant |usersData| == i
      invariant forall k | 0 <= k < i :: usersData[k] == UserRows(hashDraws, registrationDates, lastLogins, isActives)[k]
    {
      usersData := usersData + [UserRow(i + 1, usernames[i], emails[i], passwordHashes[i],
                                        registrationDates[i], lastLogins[i], isActives[i])];
    }
  }

  /** The user ids, in row order. */
  function UserIds(users: seq<UserRow>): seq<int> {
    seq(|users|, i requires 0 <= i < |users| => users[i].id)
  }

  /** User `k` is called `"user" + str(k)` and has the address `"user" + str(k) + "@example.com"`; ids run 1..50. */
  lemma {:induction false} UserIdentity(hashDraws: seq<nat>, registrationDates: seq<string>, lastLogins: seq<string>, isActives: seq<int>)
    requires |hashDraws| == USER_COUNT && |registrationDates| == USER_COUNT
    requires |lastLogins| == USER_COUNT && |isActives| == USER_COUNT
    ensures var users := UserRows(hashDraws, registrationDates, lastLogins, isActives);
      && |users| == USER_COUNT && Consecutive(UserIds(users))
      && forall i | 0 <= i < |users| ::
           users[i].id >= 1 && users[i].username == Username(users[i].id) && users[i].email == Email(users[i].id)
  {
    var users := UserRows(hashDraws, registrationDates, lastLogins, isActives);
    forall i | 0 <= i < |users|
      ensures users[i].id == i + 1 && users[i].username == Username(i + 1) && users[i].email == Email(i + 1)
    {
      assert Usernames()[i] == Username(i + 1);
      assert Emails()[i] == Email(i + 1);
    }
  }

  /** No two users share a username: the `UNIQUE` constraint on `users.username`. */
  predicate UsernamesDistinct(users: seq<UserRow>) {
    forall i, j | 0 <= i < j < |users| :: users[i].username != users[j].username
  }

  /** The usernames are distinct, as the `UNIQUE` constraint on `users.username` demands. */
  lemma {:induction false} UsernamesUnique(hashDraws: seq<nat>, registrationDates: seq<string>, lastLogins: seq<string>, isActives: seq<int>)
    requires |hashDraws| == USER_COUNT && |registrationDates| == USER_COUNT
    requires |lastLogins| == USER_COUNT && |isActives| == USER_COUNT
    ensures UsernamesDistinct(UserRows(hashDraws, registrationDates, lastLogins, isActives))
  {
    var users := UserRows(hashDraws, registrationDates, lastLogins, isActives);
    forall i, j | 0 <= i < j < |users|
      ensures users[i].username != users[j].username
    {
      assert users[i].username == Usernames()[i] == Username(i + 1);
      assert users[j].username == Usernames()[j] == Username(j + 1);
      if users[i].username == users[j].username {
        UsernameInjective(i + 1, j + 1);
      }
    }
  }

  // ----------------------------------------------------------- categories

  /** `main_categories`. */
  function MainCategories(): seq<CategoryRow> {
    [ CategoryRow(1, "电子产品", "各种电子设备和配件", None),
      CategoryRow(2, "服装", "男女服装和配饰", None),
      CategoryRow(3, "家具", "家居和办公家具", None),
      CategoryRow(4, "食品", "食品和饮料", None),
      CategoryRow(5, "图书", "各类图书和杂志", None) ]
  }

  /** `sub_categories`. */
  function SubCategories(): seq<CategoryRow> {
    [ CategoryRow(6, "手机", "智能手机和配件", Some(1)),
      CategoryRow(7, "电脑", "笔记本和台式电脑", Some(1)),
      CategoryRow(8, "相机", "数码相机和摄像设备", Some(1)),
      CategoryRow(9, "男装", "男士服装", Some(2)),
      CategoryRow(10, "女装", "女士服装", Some(2)),
      CategoryRow(11, "儿童服装", "儿童服装和配饰", Some(2)),
      CategoryRow(12, "客厅家具", "沙发、茶几等", Some(3)),
      CategoryRow(13, "卧室家具", "床、衣柜等", Some(3)),
      CategoryRow(14, "办公家具", "办公桌、椅子等", Some(3)),
      CategoryRow(15, "零食", "各类零食和小吃", Some(4)),
      CategoryRow(16, "饮料", "各类饮品", Some(4)),
      CategoryRow(17, "小说", "各类小说", Some(5)),
      CategoryRow(18, "教育", "教育和学习资料", Some(5)),
      CategoryRow(19, "杂志", "各类杂志期刊", Some(5)) ]
  }

  /** `main_categories + sub_categories`, the rows inserted into `categories`. */
  function Categories(): seq<CategoryRow> {
    MainCategories() + SubCategories()
  }

  /** The category ids, in row order. */
  function CategoryIds(categories: seq<CategoryRow>): seq<int> {
    seq(|categories|, i requires 0 <= i < |categories| => categories[i].id)
  }

  /**
    The category tree: ids run 1..19; the five main categories have no parent; every
    sub-category hangs under a main category.
   */
  lemma {:induction false} CategoryTree()
    ensures |Categories()| == 19 && Consecutive(CategoryIds(Categories()))
    ensures forall i | 0 <= i < 5 :: Categories()[i].parentId.None?
    ensures forall i | 5 <= i < 19 :: Categories()[i].parentId.Some? && 1 <= Categories()[i].parentId.value <= 5
  {
  }

  /** No two categories share a name: the `UNIQUE` constraint on `categories.name`. */
  predicate CategoryNamesDistinct(categories: seq<CategoryRow>) {
    forall i, j | 0 <= i < j < |categories| :: categories[i].name != categories[j].name
  }

  /** A name's first character and its length. */
  function NameKey(name: string): (char, int) {
    if |name| == 0 then (' ', 0) else (name[0], |name|)
  }

  /** The keys of the nineteen category names, in row order. */
  const CATEGORY_KEYS: seq<(char, int)> :=
    [('电', 4), ('服', 2), ('家', 2), ('食', 2), ('图', 2), ('手', 2), ('电', 2), ('相', 2), ('男', 2), ('女', 2),
     ('儿', 4), ('客', 4), ('卧', 4), ('办', 4), ('零', 2), ('饮', 2), ('小', 2), ('教', 2), ('杂', 2)]

  /** The main category names have the first five keys. */
  lemma {:induction false} MainCategoryKeys()
    ensures forall i | 0 <= i < |MainCategories()| :: NameKey(MainCategories()[i].name) == CATEGORY_KEYS[i]
  {
  }

  /** The sub-category names have the other fourteen keys. */
  lemma {:induction false} SubCategoryKeys()
    ensures forall i | 0 <= i < |SubCategories()| :: NameKey(SubCategories()[i].name) == CATEGORY_KEYS[i + 5]
  {
  }

  /** Row `i` of the category table has name key `i`. */
  lemma {:induction false} CategoryKeys(i: nat)
    requires i < |Categories()|
    ensures |CATEGORY_KEYS| == |Categories()| && NameKey(Categories()[i].name) == CATEGORY_KEYS[i]
  {
    if i < 5 {
      MainCategoryKeys();
      assert Categories()[i] == MainCategories()[i];
    } else {
      SubCategoryKeys();
      assert Categories()[i] == SubCategories()[i - 5];
    }
  }

  /** No key occurs twice among the category names. */
  lemma {:induction false} CategoryKeysDistinct()
    ensures forall i, j | 0 <= i < j < |CATEGORY_KEYS| :: CATEGORY_KEYS[i] != CATEGORY_KEYS[j]
  {
  }

  /**
    The category names are distinct, as the `UNIQUE` constraint on `categories.name`
    demands: no two of them share both their first character and their length.
   */
  lemma {:induction false} CategoryNamesUnique()
    ensures CategoryNamesDistinct(Categories())
  {
    CategoryKeysDistinct();
    var categories := Categories();
    forall i, j | 0 <= i < j < |categories|
      ensures categories[i].name != categories[j].name
    {
      CategoryKeys(i);
      CategoryKeys(j);
    }
  }

  // ------------------------------------------------------------- products

  /** `product_names`. */
  function ProductNames(): seq<string> {
    [ "iPhone 13", "华为 P40", "小米 12", "三星 Galaxy S22", "OPPO Find X5",
      "MacBook Pro", "联想 ThinkPad", "华硕 ZenBook", "戴尔 XPS", "微软 Surface",
      "佳能 EOS R5", "索尼 A7III", "富士 X-T4", "尼康 Z6", "GoPro Hero 10",
      "男士牛仔裤", "男士T恤", "男士夹克", "男士衬衫", "男士外套",
      "女士连衣裙", "女士牛仔裤", "女士T恤", "女士衬衫", "女士外套",
      "儿童T恤", "儿童裤子", "儿童连衣裙", "儿童外套", "婴儿连体衣",
      "三人沙发", "茶几", "电视柜", "角几", "沙发垫",
      "床垫", "衣柜", "床头柜", "梳妆台", "化妆镜",
      "办公桌", "办公椅", "会议桌", "文件柜", "书架",
      "薯片", "巧克力", "饼干", "坚果", "糖果",
      "可乐", "矿泉水", "果汁", "咖啡", "茶",
      "《活着》", "《三体》", "《百年孤独》", "《红楼梦》", "《战争与和平》",
      "《高等数学》", "《英语语法大全》", "《计算机科学导论》", "《物理学原理》", "《经济学原理》",
      "《时尚芭莎》", "《读者》", "《科学美国人》", "《国家地理》", "《经济学人》" ]
  }

  /** `[f"{name}的详细描述，这是一个示例文本。" for name in product_names]`. */
  function ProductDescriptions(): (ds: seq<string>)
    ensures |ds| == |ProductNames()|
  {
    var names := ProductNames();
    seq(|names|, i requires 0 <= i < |names| => names[i] + "的详细描述，这是一个示例文本。")
  }

  /** The category of product index `i`: blocks of five, from 6 up to 19, which takes the rest. */
  function CategoryFor(i: nat): (c: int)
    ensures 6 <= c <= 19
  {
    if i < 65 then 6 + i / 5 else 19
  }

  /** The category ids of the first `n` products. */
  function CategoryIdsFor(n: nat): seq<int> {
    seq(n, i requires 0 <= i < n => CategoryFor(i))
  }

  /** `category_ids`, built by the generator's `if`/`elif` chain over `enumerate(product_names)`. */
  method AssignCategoryIds(productNames: seq<string>) returns (categoryIds: seq<int>)
    ensures categoryIds == CategoryIdsFor(|productNames|)
  {
    categoryIds := [];
    for i := 0 to |productNames|
      invariant categoryIds == CategoryIdsFor(i)
    {
      var c;
      if i < 5 { c := 6; }
      else if i < 10 { c := 7; }
      else if i < 15 { c := 8; }
      else if i < 20 { c := 9; }
      else if i < 25 { c := 10; }
      else if i < 30 { c := 11; }
      else if i < 35 { c := 12; }
      else if i < 40 { c := 13; }
      else if i < 45 { c := 14; }
      else if i < 50 { c := 15; }
      else if i < 55 { c := 16; }
      else if i < 60 { c := 17; }
      else if i < 65 { c := 18; }
      else { c := 19; }
      categoryIds := categoryIds + [c];
    }
  }

  /** Number of times `x` occurs in `s` (Python's `s.count(x)`). */
  function Count(s: seq<int>, x: int): nat {
    if |s| == 0 then 0 else Count(s[..|s| - 1], x) + (if s[|s| - 1] == x then 1 else 0)
  }

  /** Of the 70 products, index `i` belongs to sub-category `c` exactly when it lies in `c`'s block of five. */
  lemma {:induction false} CategoryBlock(i: nat, c: int)
    requires i < PRODUCT_COUNT && 6 <= c <= 19
    ensures CategoryFor(i) == c <==> 5 * (c - 6) <= i < 5 * (c - 6) + 5
  {
  }

  /** Among the first `m` products, sub-category `c` holds as many as its block has below `m`. */
  lemma {:induction false} CategoryCountPrefix(c: int, m: nat)
    requires 6 <= c <= 19 && m <= PRODUCT_COUNT
    ensures Count(CategoryIdsFor(m), c) == if m <= 5 * (c - 6) then 0 else if m >= 5 * (c - 6) + 5 then 5 else m - 5 * (c - 6)
  {
    if m > 0 {
      CategoryCountPrefix(c, m - 1);
      assert CategoryIdsFor(m)[..m - 1] == CategoryIdsFor(m - 1);
      CategoryBlock(m - 1, c);
    }
  }

  /** Every sub-category 6..19 receives exactly five of the 70 products, and no main category any. */
  lemma {:induction false} FivePerSubCategory(c: int)
    ensures 6 <= c <= 19 ==> Count(CategoryIdsFor(PRODUCT_COUNT), c) == 5
    ensures 1 <= c <= 5 ==> Count(CategoryIdsFor(PRODUCT_COUNT), c) == 0
  {
    if 6 <= c <= 19 {
      CategoryCountPrefix(c, PRODUCT_COUNT);
    } else if 1 <= c <= 5 {
      CountAbsent(CategoryIdsFor(PRODUCT_COUNT), c);
    }
  }

  /** A value that does not occur is counted zero times. */
  lemma {:induction false} CountAbsent(s: seq<int>, x: int)
    requires x !in s
    ensures Count(s, x) == 0
  {
    if |s| > 0 {
      assert forall y | y in s[..|s| - 1] :: y in s;
      CountAbsent(s[..|s| - 1], x);
    }
  }

  /** The product rows, row by row: row `i` has id `i + 1`, the `i`-th name, description, draws and category. */
  function ProductRows<P>(prices: seq<P>, stocks: seq<int>, createdDates: seq<string>): seq<ProductRow<P>>
    requires |prices| == PRODUCT_COUNT && |stocks| == PRODUCT_COUNT && |createdDates| == PRODUCT_COUNT
  {
    seq(PRODUCT_COUNT, i requires 0 <= i < PRODUCT_COUNT =>
      ProductRow(i + 1, ProductNames()[i], ProductDescriptions()[i], prices[i], CategoryFor(i), stocks[i], createdDates[i]))
  }

  /** `products`, built by the generator's `for i in range(len(product_names))` loop. */
  method BuildProducts<P>(prices: seq<P>, stocks: seq<int>, createdDates: seq<string>) returns (products: seq<ProductRow<P>>)
    requires |prices| == PRODUCT_COUNT && |stocks| == PRODUCT_COUNT && |createdDates| == PRODUCT_COUNT
    ensures products == ProductRows(prices, stocks, createdDates)
  {
    var productNames := ProductNames();
    var productDescriptions := ProductDescriptions();
    var categoryIds := AssignCategoryIds(productNames);
    products := [];
    for i := 0 to |productNames|
      invariant |products| == i
      invariant forall k | 0 <= k < i :: products[k] == ProductRows(prices, stocks, createdDates)[k]
    {
      products := products + [ProductRow(i + 1, productNames[i], productDescriptions[i], prices[i],
                                         categoryIds[i], stocks[i], createdDates[i])];
    }
  }

  /** The product ids, in row order. */
  function ProductIds<P>(products: seq<ProductRow<P>>): seq<int> {
    seq(|products|, i requires 0 <= i < |products| => products[i].id)
  }

  /** Product ids run 1..70 in list order, and every product lies in an existing sub-category. */
  lemma {:induction false} ProductKeys<P>(prices: seq<P>, stocks: seq<int>, createdDates: seq<string>)
    requires |prices| == PRODUCT_COUNT && |stocks| == PRODUCT_COUNT && |createdDates| == PRODUCT_COUNT
    ensures var products := ProductRows(prices, stocks, createdDates);
      && |products| == PRODUCT_COUNT && Consecutive(ProductIds(products))
      && CategoriesResolve(products, Categories())
      && forall i | 0 <= i < |products| :: Categories()[products[i].categoryId - 1].parentId.Some?
  {
    CategoryTree();
    var products := ProductRows(prices, stocks, createdDates);
    forall i | 0 <= i < |products|
      ensures products[i].categoryId in CategoryIds(Categories())
    {
      ConsecutiveContains(CategoryIds(Categories()), products[i].categoryId);
    }
  }

  // --------------------------------------------------------------- orders

  /** `order_statuses`. */
  function OrderStatuses(): seq<string> {
    ["已下单", "已支付", "已发货", "已完成", "已取消"]
  }

  /** The draws of `random.choice(order_statuses)`, as indices into the list. */
  predicate StatusDrawsValid(statusDraws: seq<nat>) {
    forall i | 0 <= i < |statusDraws| :: statusDraws[i] < |OrderStatuses()|
  }

  /** The order rows, row by row: order `i + 1` with the `i`-th user draw, date and status, total 0. */
  function OrderRows(userDraws: seq<int>, orderDates: seq<string>, statusDraws: seq<nat>): seq<OrderRow>
    requires |userDraws| == ORDER_COUNT && |orderDates| == ORDER_COUNT && |statusDraws| == ORDER_COUNT
    requires StatusDrawsValid(statusDraws)
  {
    seq(ORDER_COUNT, i requires 0 <= i < ORDER_COUNT =>
      OrderRow(i + 1, userDraws[i], orderDates[i], 0, OrderStatuses()[statusDraws[i]]))
  }

  /** `orders`, built by the generator's `for i in range(1, 101)` loop. */
  method BuildOrders(userDraws: seq<int>, orderDates: seq<string>, statusDraws: seq<nat>) returns (orders: seq<OrderRow>)
    requires |userDraws| == ORDER_COUNT && |orderDates| == ORDER_COUNT && |statusDraws| == ORDER_COUNT
    requires StatusDrawsValid(statusDraws)
    ensures orders == OrderRows(userDraws, orderDates, statusDraws)
  {
    var orderStatuses := OrderStatuses();
    orders := [];
    for i := 1 to ORDER_COUNT + 1
      invariant |orders| == i - 1
      invariant forall k | 0 <= k < i - 1 :: orders[k] == OrderRows(userDraws, orderDates, statusDraws)[k]
    {
      var userId := userDraws[i - 1];
      var orderDate := orderDates[i - 1];
      var status := orderStatuses[statusDraws[i - 1]];
      orders := orders + [OrderRow(i, userId, orderDate, 0, status)];
    }
  }

  /** The order ids, in row order. */
  function OrderIds(orders: seq<OrderRow>): seq<int> {
    seq(|orders|, i requires 0 <= i < |orders| => orders[i].id)
  }

  /** Order ids run 1..100 and, with user draws from `randint(1, 50)`, every order belongs to an existing user. */
  lemma {:induction false} OrderKeys(userDraws: seq<int>, orderDates: seq<string>, statusDraws: seq<nat>, users: seq<UserRow>)
    requires |userDraws| == ORDER_COUNT && |orderDates| == ORDER_COUNT && |statusDraws| == ORDER_COUNT
    requires StatusDrawsValid(statusDraws)
    requires forall i | 0 <= i < |userDraws| :: 1 <= userDraws[i] <= USER_COUNT
    requires |users| == USER_COUNT && Consecutive(UserIds(users))
    ensures var orders := OrderRows(userDraws, orderDates, statusDraws);
      && |orders| == ORDER_COUNT && Consecutive(OrderIds(orders))
      && UsersResolve(orders, users)
      && forall i | 0 <= i < |orders| :: orders[i].status in OrderStatuses()
  {
    var orders := OrderRows(userDraws, orderDates, statusDraws);
    forall i | 0 <= i < |orders|
      ensures orders[i].userId in UserIds(users)
    {
      ConsecutiveContains(UserIds(users), orders[i].userId);
    }
  }

  // ---------------------------------------------------------- order items

  /** How many items the orders before index `o` have: where order `o + 1`'s items begin. */
  function ItemsBefore(draws: seq<seq<ItemDraw>>, o: nat): nat
    requires o <= |draws|
  {
    if o == 0 then 0 else ItemsBefore(draws, o - 1) + |draws[o - 1]|
  }

  /** The items of earlier orders come first. */
  lemma {:induction false} ItemsBeforeMonotone(draws: seq<seq<ItemDraw>>, o: nat, p: nat)
    requires o <= p <= |draws|
    ensures ItemsBefore(draws, o) + (if o < p then |draws[o]| else 0) <= ItemsBefore(draws, p)
  {
    if o < p {
      ItemsBeforeMonotone(draws, o, p - 1);
    }
  }

  /** Every product draw is `randint(1, len(products))`. */
  predicate ItemDrawsValid(draws: seq<seq<ItemDraw>>, productCount: nat) {
    forall o, j | 0 <= o < |draws| && 0 <= j < |draws[o]| :: 1 <= draws[o][j].productId <= productCount
  }

  /** The item row that the `j`-th draw of order index `o` produces. */
  function ItemRow<P>(products: seq<ProductRow<P>>, draws: seq<seq<ItemDraw>>, o: nat, j: nat): OrderItemRow<P>
    requires ItemDrawsValid(draws, |products|) && o < |draws| && j < |draws[o]|
  {
    var d := draws[o][j];
    OrderItemRow(ItemsBefore(draws, o) + j + 1, o + 1, d.productId, d.quantity, products[d.productId - 1].price)
  }

  /** Item `k` has id `k + 1`, belongs to one of the orders and refers to a product whose price it copies. */
  ghost predicate ItemsKeyed<P>(products: seq<ProductRow<P>>, orderCount: nat, items: seq<OrderItemRow<P>>) {
    forall k | 0 <= k < |items| ::
      && items[k].id == k + 1
      && 1 <= items[k].orderId <= orderCount
      && 1 <= items[k].productId <= |products|
      && items[k].pricePerUnit == products[items[k].productId - 1].price
  }

  /** The item rows of order index `o`, one per draw, in draw order. */
  function OrderItemRows<P>(products: seq<ProductRow<P>>, draws: seq<seq<ItemDraw>>, o: nat): (rows: seq<OrderItemRow<P>>)
    requires ItemDrawsValid(draws, |products|) && o < |draws|
    ensures |rows| == |draws[o]|
  {
    seq(|draws[o]|, j requires 0 <= j < |draws[o]| => ItemRow(products, draws, o, j))
  }

  /** The item rows of the first `o` orders, order after order. */
  function ItemRows<P>(products: seq<ProductRow<P>>, draws: seq<seq<ItemDraw>>, o: nat): (rows: seq<OrderItemRow<P>>)
    requires ItemDrawsValid(draws, |products|) && o <= |draws|
    ensures |rows| == ItemsBefore(draws, o)
  {
    if o == 0 then [] else ItemRows(products, draws, o - 1) + OrderItemRows(products, draws, o - 1)
  }

  /**
    The items of order `o + 1` are its draws, in draw order, placed after the items of the
    orders before it.
   */
  lemma {:induction false} ItemRowsBlocks<P>(products: seq<ProductRow<P>>, draws: seq<seq<ItemDraw>>, p: nat, o: nat, j: nat)
    requires ItemDrawsValid(draws, |products|) && o < p <= |draws| && j < |draws[o]|
    ensures ItemsBefore(draws, o) + j < ItemsBefore(draws, p)
    ensures ItemRows(products, draws, p)[ItemsBefore(draws, o) + j] == ItemRow(products, draws, o, j)
  {
    if o < p - 1 {
      ItemRowsBlocks(products, draws, p - 1, o, j);
      ItemsBeforeMonotone(draws, o, p - 1);
    }
  }

  /** Item `k` of the first `p` orders is numbered `k + 1`, belongs to one of them and copies its product's price. */
  lemma {:induction false} ItemRowKeyed<P>(products: seq<ProductRow<P>>, draws: seq<seq<ItemDraw>>, p: nat, k: nat)
    requires ItemDrawsValid(draws, |products|) && p <= |draws| && k < ItemsBefore(draws, p)
    ensures var item := ItemRows(products, draws, p)[k];
      && item.id == k + 1 && 1 <= item.orderId <= p
      && 1 <= item.productId <= |products|
      && item.pricePerUnit == products[item.productId - 1].price
  {
    var earlier := ItemRows(products, draws, p - 1);
    var items := earlier + OrderItemRows(products, draws, p - 1);
    assert ItemRows(products, draws, p) == items;
    if k < |earlier| {
      ItemRowKeyed(products, draws, p - 1, k);
      assert items[k] == earlier[k];
    } else {
      var j := k - |earlier|;
      assert items[k] == ItemRow(products, draws, p - 1, j);
    }
  }

  /** The items of the first `p` orders are numbered on from 1, belong to those orders and copy their product's price. */
  lemma {:induction false} ItemRowsKeyed<P>(products: seq<ProductRow<P>>, draws: seq<seq<ItemDraw>>, p: nat)
    requires ItemDrawsValid(draws, |products|) && p <= |draws|
    ensures ItemsKeyed(products, p, ItemRows(products, draws, p))
  {
    forall k | 0 <= k < |ItemRows(products, draws, p)| {
      ItemRowKeyed(products, draws, p, k);
    }
  }

  /**
    `order_items`, built by the generator's nested loops with the `item_id` counter, and
    the counter's final value: one row per draw, order after order.
   */
  method BuildOrderItems<P>(products: seq<ProductRow<P>>, draws: seq<seq<ItemDraw>>)
    returns (orderItems: seq<OrderItemRow<P>>, itemId: int)
    requires ItemDrawsValid(draws, |products|)
    ensures orderItems == ItemRows(products, draws, |draws|) && itemId == |orderItems| + 1
  {
    orderItems := [];
    itemId := 1;
    for orderId := 1 to |draws| + 1
      invariant orderItems == ItemRows(products, draws, orderId - 1) && itemId == |orderItems| + 1
    {
      var orderDraws := draws[orderId - 1];
      ghost var rows := OrderItemRows(products, draws, orderId - 1);
      for n := 0 to |orderDraws|
        invariant orderItems == ItemRows(products, draws, orderId - 1) + rows[..n]
        invariant itemId == |orderItems| + 1
      {
        var productId := orderDraws[n].productId;
        var quantity := orderDraws[n].quantity;
        var pricePerUnit := products[productId - 1].price;
        assert rows[n] == OrderItemRow(itemId, orderId, productId, quantity, pricePerUnit);
        assert rows[..n + 1] == rows[..n] + [rows[n]];
        orderItems := orderItems + [OrderItemRow(itemId, orderId, productId, quantity, pricePerUnit)];
        itemId := itemId + 1;
      }
      assert rows[..|orderDraws|] == rows;
    }
  }

  /** With 1..5 items per order, 100 orders have between 100 and 500 items. */
  lemma {:induction false} ItemTotalBounds(draws: seq<seq<ItemDraw>>, o: nat)
    requires o <= |draws|
    requires forall p | 0 <= p < |draws| :: 1 <= |draws[p]| <= 5
    ensures o <= ItemsBefore(draws, o) <= 5 * o
  {
    if o > 0 {
      ItemTotalBounds(draws, o - 1);
    }
  }

  // ------------------------------------------------------------ the whole

  /** Everything the generator inserts, table by table. */
  datatype TestDatabase<P> = TestDatabase(users: seq<UserRow>, categories: seq<CategoryRow>,
                                          products: seq<ProductRow<P>>, orders: seq<OrderRow>,
                                          orderItems: seq<OrderItemRow<P>>)

  /**
    The schema's keys and foreign keys hold: each table is numbered 1, 2, 3, ..., the
    usernames and the category names are distinct, every `parent_id`, `category_id`,
    `user_id`, `order_id` and `product_id` names an existing row, and each item copies
    the price of its product.
   */
  ghost predicate Intact<P>(db: TestDatabase<P>) {
    && Consecutive(UserIds(db.users))
    && Consecutive(CategoryIds(db.categories))
    && Consecutive(ProductIds(db.products))
    && Consecutive(OrderIds(db.orders))
    && UsernamesDistinct(db.users)
    && CategoryNamesDistinct(db.categories)
    && ParentsResolve(db.categories)
    && CategoriesResolve(db.products, db.categories)
    && UsersResolve(db.orders, db.users)
    && ItemsResolve(db.orderItems, db.orders, db.products)
  }

  /** Every `parent_id` names an existing category. */
  predicate ParentsResolve(categories: seq<CategoryRow>) {
    forall i | 0 <= i < |categories| ::
      categories[i].parentId.Some? ==> categories[i].parentId.value in CategoryIds(categories)
  }

  /** Every `category_id` names an existing category. */
  predicate CategoriesResolve<P>(products: seq<ProductRow<P>>, categories: seq<CategoryRow>) {
    forall i | 0 <= i < |products| :: products[i].categoryId in CategoryIds(categories)
  }

  /** Every `user_id` names an existing user. */
  predicate UsersResolve(orders: seq<OrderRow>, users: seq<UserRow>) {
    forall i | 0 <= i < |orders| :: orders[i].userId in UserIds(users)
  }

  /** Items are numbered 1, 2, 3, ..., name an existing order and product, and copy that product's price. */
  ghost predicate ItemsResolve<P>(items: seq<OrderItemRow<P>>, orders: seq<OrderRow>, products: seq<ProductRow<P>>) {
    forall k | 0 <= k < |items| ::
      && items[k].id == k + 1
      && items[k].orderId in OrderIds(orders)
      && items[k].productId in ProductIds(products)
      && 1 <= items[k].productId <= |products|
      && items[k].pricePerUnit == products[items[k].productId - 1].price
  }

  /** The parent of every category is an existing category. */
  lemma {:induction false} ParentsExist()
    ensures |Categories()| == 19 && Consecutive(CategoryIds(Categories()))
    ensures ParentsResolve(Categories())
  {
    CategoryTree();
    var categories := Categories();
    forall i | 0 <= i < |categories| && categories[i].parentId.Some?
      ensures categories[i].parentId.value in CategoryIds(categories)
    {
      ConsecutiveContains(CategoryIds(categories), categories[i].parentId.value);
    }
  }

  /** Items numbered on from 1 that refer to orders and products by position refer to existing rows. */
  lemma {:induction false} ItemsReferToRows<P>(products: seq<ProductRow<P>>, orders: seq<OrderRow>, items: seq<OrderItemRow<P>>)
    requires Consecutive(ProductIds(products)) && Consecutive(OrderIds(orders))
    requires ItemsKeyed(products, |orders|, items)
    ensures ItemsResolve(items, orders, products)
  {
    forall k | 0 <= k < |items|
      ensures items[k].orderId in OrderIds(orders) && items[k].productId in ProductIds(products)
    {
      ConsecutiveContains(OrderIds(orders), items[k].orderId);
      ConsecutiveContains(ProductIds(products), items[k].productId);
    }
  }

  /**
    `create_test_database` without the file, the schema text and the totals: the rows of
    all five tables from the given draws, with intact keys, 50 users, 19 categories,
    70 products, 100 orders and between 100 and 500 order items.
   */
  method CreateTestDatabase<P>(hashDraws: seq<nat>, registrationDates: seq<string>, lastLogins: seq<string>,
                               isActives: seq<int>, prices: seq<P>, stocks: seq<int>, createdDates: seq<string>,
                               userDraws: seq<int>, orderDates: seq<string>, statusDraws: seq<nat>,
                               itemDraws: seq<seq<ItemDraw>>)
    returns (db: TestDatabase<P>)
    requires |hashDraws| == USER_COUNT && |registrationDates| == USER_COUNT
    requires |lastLogins| == USER_COUNT && |isActives| == USER_COUNT
    requires |prices| == PRODUCT_COUNT && |stocks| == PRODUCT_COUNT && |createdDates| == PRODUCT_COUNT
    requires |userDraws| == ORDER_COUNT && |orderDates| == ORDER_COUNT && |statusDraws| == ORDER_COUNT
    requires StatusDrawsValid(statusDraws)
    requires forall i | 0 <= i < |userDraws| :: 1 <= userDraws[i] <= USER_COUNT
    requires |itemDraws| == ORDER_COUNT && ItemDrawsValid(itemDraws, PRODUCT_COUNT)
    requires forall o | 0 <= o < |itemDraws| :: 1 <= |itemDraws[o]| <= 5
    ensures Intact(db)
    ensures |db.users| == USER_COUNT && |db.categories| == 19 && |db.products| == PRODUCT_COUNT
    ensures |db.orders| == ORDER_COUNT && ORDER_COUNT <= |db.orderItems| <= 5 * ORDER_COUNT
  {
    var users := BuildUsers(hashDraws, registrationDates, lastLogins, isActives);
    UserIdentity(hashDraws, registrationDates, lastLogins, isActives);
    UsernamesUnique(hashDraws, registrationDates, lastLogins, isActives);
    var categories := Categories();
    ParentsExist();
    CategoryNamesUnique();
    var products := BuildProducts(prices, stocks, createdDates);
    ProductKeys(prices, stocks, createdDates);
    var orders := BuildOrders(userDraws, orderDates, statusDraws);
    OrderKeys(userDraws, orderDates, statusDraws, users);
    var orderItems, _ := BuildOrderItems(products, itemDraws);
    ItemRowsKeyed(products, itemDraws, |itemDraws|);
    ItemTotalBounds(itemDraws, |itemDraws|);
    ItemsReferToRows(products, orders, orderItems);
    db := TestDatabase(users, categories, products, orders, orderItems);
  }
}
