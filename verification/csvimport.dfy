/**
 * `convert_csv_row_to_scenario`: one row of the scenarios CSV export becomes
 * a scenario record. Three columns hold JSON lists (the conversation, the
 * last products viewed, the orders); each is walked by a loop that skips
 * entries that are not dicts, and each loop is a method proved equal to a
 * fold over the list. The other columns are cleaned texts, the company notes
 * and two list-like texts.
 */
module CsvImport {
  import opened Wrappers
  import opened Text
  import opened Dicts
  import opened JsonValues
  import opened Shapes
  import opened StringLists
  import opened Notes
  import opened Records

  /** The dict entries of a JSON list, in order: the entries the loops below do not skip. */
  function DictItems(xs: seq<Json>): (r: seq<Json>)
    ensures |r| <= |xs|
    ensures forall i :: 0 <= i < |r| ==> r[i].Obj?
    decreases |xs|
  {
    if xs == [] then []
    else
      var init := DictItems(xs[..|xs| - 1]);
      if xs[|xs| - 1].Obj? then init + [xs[|xs| - 1]] else init
  }

  /** The shape of the loops over the conversation, an order's products and the orders: each dict mapped by `f`, anything else skipped. */
  function OverDicts(f: Json -> Json, xs: seq<Json>): (r: seq<Json>)
    decreases |xs|
  {
    if xs == [] then []
    else
      var init := OverDicts(f, xs[..|xs| - 1]);
      var x := xs[|xs| - 1];
      if x.Obj? then init + [f(x)] else init
  }

  /** Such a loop yields one entry per dict of the list, in order. */
  lemma {:induction false} OverDictsIsMap(f: Json -> Json, xs: seq<Json>)
    ensures |OverDicts(f, xs)| == |DictItems(xs)|
    ensures forall i :: 0 <= i < |DictItems(xs)| ==> OverDicts(f, xs)[i] == f(DictItems(xs)[i])
    decreases |xs|
  {
    if xs != [] {
      OverDictsIsMap(f, xs[..|xs| - 1]);
    }
  }

  /** The list a JSON-list column holds, or no entries when it does not parse to a list. */
  function ListColumn(rt: Runtime, row: Dict<Json>, column: string): seq<Json>
  {
    var parsed := ParseJsonText(rt, NormalizeText(rt, Get(row, column, Str(""))));
    if parsed.Arr? then parsed.items else []
  }

  /** `normalize_text(row.get(column)).strip()` */
  function Cell(rt: Runtime, row: Dict<Json>, column: string): string
  {
    Clean(rt, Get(row, column, Null))
  }

  /** `entry[key] = value` when the cleaned `value` is not empty. */
  function WithText(entry: Dict<Json>, key: string, value: string): Dict<Json>
  {
    if value != "" then entry + [(key, Str(value))] else entry
  }

  // ---------------------------------------------------------------------------
  // The conversation

  /**
   * A message built from the values found under its aliases: the media, text
   * and type, then the date and the id when their cleaned values are not empty.
   */
  function Message(rt: Runtime, media: Json, text: Json, kind: Json, when: Json, id: Json): Dict<Json>
  {
    var entry := [("message_media", Strs(MessageMedia(rt, media))),
                  ("message_text", Str(NormalizeText(rt, text))),
                  ("message_type", Str(Lower(NormalizeText(rt, kind))))];
    WithText(WithText(entry, "date_time", Clean(rt, when)), "message_id", Clean(rt, id))
  }

  /** The message a dict of the conversation column becomes; earlier aliases win. */
  function MessageEntry(rt: Runtime, msg: Json): Dict<Json>
  {
    Message(rt, GetObjPropValue(msg, ["message_media", "media"]), GetObjPropValue(msg, ["message_text", "content"]),
      GetObjPropValue(msg, ["message_type", "role"]), GetObjPropValue(msg, ["date_time", "dateTime", "timestamp"]),
      GetObjPropValue(msg, ["message_id", "id"]))
  }

  /** The loop over the conversation column's list. */
  function Messages(rt: Runtime, xs: seq<Json>): seq<Json>
  {
    OverDicts(x => Obj(MessageEntry(rt, x)), xs)
  }

  /** No ASCII capital letter. */
  predicate IsLowerCase(s: string)
  {
    forall i :: 0 <= i < |s| ==> !('A' <= s[i] <= 'Z')
  }

  /** `lower()` leaves no ASCII capital letter. */
  lemma LowerIsLowerCase(s: string)
    ensures IsLowerCase(Lower(s))
  {
    forall i | 0 <= i < |s| ensures !('A' <= Lower(s)[i] <= 'Z') {
      assert Lower(s)[i] == LowerChar(s[i]);
    }
  }

  /** Stripped, non-blank texts as a JSON list. */
  predicate CleanTexts(j: Json)
  {
    j.Arr? && forall i :: 0 <= i < |j.items| ==> j.items[i].Str? && j.items[i].s != "" && IsTrimmed(j.items[i].s)
  }

  /** The media list is stripped, non-blank references. */
  lemma MediaListClean(rt: Runtime, media: Json)
    ensures CleanTexts(Strs(MessageMedia(rt, media)))
  {
    MediaOfTrimmed(rt, MediaItems(media));
  }

  /**
   * A message has its media, text and type first, the type in lower case and
   * the media references stripped and non-blank; its date and id follow
   * exactly when their cleaned values are not empty.
   */
  lemma MessageShape(rt: Runtime, media: Json, text: Json, kind: Json, when: Json, id: Json)
    ensures var e := Message(rt, media, text, kind, when, id);
      && |e| >= 3 && e[0].0 == "message_media" && e[1].0 == "message_text" && e[2].0 == "message_type"
      && CleanTexts(e[0].1) && e[1].1 == Str(NormalizeText(rt, text))
      && e[2].1.Str? && IsLowerCase(e[2].1.s)
    ensures var e := Message(rt, media, text, kind, when, id);
      var dateTime, msgId := Clean(rt, when), Clean(rt, id);
      && |e| == 3 + (if dateTime != "" then 1 else 0) + (if msgId != "" then 1 else 0)
      && (dateTime != "" ==> e[3] == ("date_time", Str(dateTime)) && IsTrimmed(dateTime))
      && (msgId != "" ==> e[|e| - 1] == ("message_id", Str(msgId)) && IsTrimmed(msgId))
  {
    MediaListClean(rt, media);
    LowerIsLowerCase(NormalizeText(rt, kind));
    TrimTwice(NormalizeText(rt, when));
    TrimTwice(NormalizeText(rt, id));
  }

  /** The loop over the conversation column's list. */
  method ConvertConversation(rt: Runtime, xs: seq<Json>) returns (conversation: seq<Json>)
    ensures conversation == Messages(rt, xs)
  {
    conversation := [];
    for i := 0 to |xs|
      invariant conversation == Messages(rt, xs[..i])
    {
      assert xs[..i + 1][..i] == xs[..i];
      var msg := xs[i];
      if !msg.Obj? {
        continue;
      }
      var media := GetObjPropValue(msg, ["message_media", "media"]);
      var textRaw := GetObjPropValue(msg, ["message_text", "content"]);
      var typeRaw := GetObjPropValue(msg, ["message_type", "role"]);
      var mediaTexts := NormalizeMessageMedia(rt, media);
      var entry := [("message_media", Strs(mediaTexts)),
                    ("message_text", Str(NormalizeText(rt, textRaw))),
                    ("message_type", Str(Lower(NormalizeText(rt, typeRaw))))];
      var dateTime := Clean(rt, GetObjPropValue(msg, ["date_time", "dateTime", "timestamp"]));
      if dateTime != "" {
        entry := entry + [("date_time", Str(dateTime))];
      }
      var msgId := Clean(rt, GetObjPropValue(msg, ["message_id", "id"]));
      if msgId != "" {
        entry := entry + [("message_id", Str(msgId))];
      }
      assert entry == MessageEntry(rt, msg);
      conversation := conversation + [Obj(entry)];
    }
    assert xs[..|xs|] == xs;
  }

  // ---------------------------------------------------------------------------
  // The products viewed

  /** A product viewed, from its name, link and view date; None when it has neither name nor link. */
  function Viewed(rt: Runtime, name: Json, link: Json, viewDate: Json): Option<Json>
  {
    var n, l := Clean(rt, name), Clean(rt, link);
    if n == "" && l == "" then None
    else Some(Obj(WithText(WithText([("item", Str(if n != "" then n else l))], "link", l), "timeAgo", Clean(rt, viewDate))))
  }

  /** The browsing entry a dict of the products column becomes, if any. */
  function ViewedEntry(rt: Runtime, p: Json): Option<Json>
  {
    Viewed(rt, Field(p, "product_name", Null), Field(p, "product_link", Null), Field(p, "view_date", Null))
  }

  /** The loop over the products column's list. */
  function Browsing(rt: Runtime, xs: seq<Json>): (r: seq<Json>)
    ensures |r| <= |xs|
    decreases |xs|
  {
    if xs == [] then []
    else
      var init := Browsing(rt, xs[..|xs| - 1]);
      var p := xs[|xs| - 1];
      if p.Obj? && ViewedEntry(rt, p).Some? then init + [ViewedEntry(rt, p).value] else init
  }

  /** A browsing entry is shown by a stripped, non-blank text. */
  predicate ShownItem(e: Json)
  {
    e.Obj? && |e.fields| >= 1 && e.fields[0].0 == "item" && e.fields[0].1.Str?
    && e.fields[0].1.s != "" && IsTrimmed(e.fields[0].1.s)
  }

  /**
   * A product is skipped exactly when it has neither name nor link; otherwise
   * it is shown by its name, or by its link when it has no name, and its link
   * and view date follow exactly when they are not empty.
   */
  lemma ViewedShape(rt: Runtime, name: Json, link: Json, viewDate: Json)
    ensures var n, l, v := Clean(rt, name), Clean(rt, link), Clean(rt, viewDate);
      var r := Viewed(rt, name, link, viewDate);
      && (r.None? <==> n == "" && l == "")
      && (r.Some? ==>
           && ShownItem(r.value) && r.value.fields[0].1.s == (if n != "" then n else l)
           && |r.value.fields| == 1 + (if l != "" then 1 else 0) + (if v != "" then 1 else 0)
           && (l != "" ==> r.value.fields[1] == ("link", Str(l)))
           && (v != "" ==> r.value.fields[|r.value.fields| - 1] == ("timeAgo", Str(v))))
  {
    TrimTwice(NormalizeText(rt, name));
    TrimTwice(NormalizeText(rt, link));
  }

  /** Every browsing entry is shown by a stripped, non-blank text. */
  lemma {:induction false} BrowsingShown(rt: Runtime, xs: seq<Json>)
    ensures forall i :: 0 <= i < |Browsing(rt, xs)| ==> ShownItem(Browsing(rt, xs)[i])
    decreases |xs|
  {
    if xs != [] {
      BrowsingShown(rt, xs[..|xs| - 1]);
      var p := xs[|xs| - 1];
      ViewedShape(rt, Field(p, "product_name", Null), Field(p, "product_link", Null), Field(p, "view_date", Null));
    }
  }

  /** The loop over the products column's list. */
  method ConvertBrowsing(rt: Runtime, xs: seq<Json>) returns (history: seq<Json>)
    ensures history == Browsing(rt, xs)
  {
    history := [];
    for i := 0 to |xs|
      invariant history == Browsing(rt, xs[..i])
    {
      assert xs[..i + 1][..i] == xs[..i];
      var p := xs[i];
      if !p.Obj? {
        continue;
      }
      var name := Clean(rt, Field(p, "product_name", Null));
      var link := Clean(rt, Field(p, "product_link", Null));
      var viewDate := Clean(rt, Field(p, "view_date", Null));
      if name == "" && link == "" {
        continue;
      }
      var item := [("item", Str(if name != "" then name else link))];
      if link != "" {
        item := item + [("link", Str(link))];
      }
      if viewDate != "" {
        item := item + [("timeAgo", Str(viewDate))];
      }
      assert Some(Obj(item)) == ViewedEntry(rt, p);
      history := history + [Obj(item)];
    }
    assert xs[..|xs|] == xs;
  }

  // ---------------------------------------------------------------------------
  // The orders

  /** `entry[key] = value` (the value itself, not its text) when its cleaned text is not empty. */
  function WithValue(rt: Runtime, entry: Dict<Json>, key: string, value: Json): Dict<Json>
  {
    if Clean(rt, value) != "" then entry + [(key, value)] else entry
  }

  /** An ordered product, from its name, price and link. */
  function Product(rt: Runtime, name: Json, price: Json, link: Json): Dict<Json>
  {
    WithText(WithValue(rt, [("name", Str(Clean(rt, name)))], "price", price), "productLink", Clean(rt, link))
  }

  /**
   * The price of a product: `product_price` when the dict has that key,
   * whatever its value, and `price` only when it does not.
   */
  function Price(prod: Json): Json
  {
    Field(prod, "product_price", Field(prod, "price", Null))
  }

  /** The `product_price` entry wins, even when its value is empty; `price` is read only when it is absent. */
  lemma PriceAlias(prod: Json)
    ensures var fs := FieldsOf(prod);
      Price(prod) == if Lookup(fs, "product_price").Some? then Lookup(fs, "product_price").value else Get(fs, "price", Null)
  {
  }

  /** The item a dict of an order's products becomes. */
  function ProductEntry(rt: Runtime, prod: Json): Dict<Json>
  {
    Product(rt, Field(prod, "product_name", Null), Price(prod), Field(prod, "product_link", Null))
  }

  /** The loop over an order's products. */
  function Products(rt: Runtime, xs: seq<Json>): seq<Json>
  {
    OverDicts(x => Obj(ProductEntry(rt, x)), xs)
  }

  /** An order, from its number, date, products, status link and total. */
  function Order(rt: Runtime, number: Json, date: Json, products: Json, link: Json, total: Json): Dict<Json>
  {
    var items := if products.Arr? then Products(rt, products.items) else [];
    var entry := [("orderNumber", Str(Clean(rt, number))), ("orderDate", Str(Clean(rt, date))), ("items", Arr(items))];
    WithValue(rt, WithText(entry, "link", Clean(rt, link)), "total", total)
  }

  /** The order a dict of the orders column becomes. */
  function OrderEntry(rt: Runtime, order: Json): Dict<Json>
  {
    Order(rt, Field(order, "order_number", Null), Field(order, "order_date", Null), Field(order, "products", Null),
      Field(order, "order_status_url", Null), Field(order, "total", Null))
  }

  /** The loop over the orders column's list. */
  function Orders(rt: Runtime, xs: seq<Json>): seq<Json>
  {
    OverDicts(x => Obj(OrderEntry(rt, x)), xs)
  }

  /**
   * An ordered product has its cleaned name first, then the price as given
   * when its text is not empty, then the link when it is not empty.
   */
  lemma ProductShape(rt: Runtime, name: Json, price: Json, link: Json)
    ensures var e, l := Product(rt, name, price, link), Clean(rt, link);
      var priced := Clean(rt, price) != "";
      && e[0] == ("name", Str(Clean(rt, name)))
      && |e| == 1 + (if priced then 1 else 0) + (if l != "" then 1 else 0)
      && (priced ==> e[1] == ("price", price))
      && (l != "" ==> e[|e| - 1] == ("productLink", Str(l)) && IsTrimmed(l))
  {
    TrimTwice(NormalizeText(rt, link));
  }

  /**
   * An order has its cleaned number and date and one item per dict of its
   * products (none when they are not a list), then the status link when it is
   * not empty, then the total as given when its text is not empty.
   */
  lemma OrderShape(rt: Runtime, number: Json, date: Json, products: Json, link: Json, total: Json)
    ensures var e, l := Order(rt, number, date, products, link, total), Clean(rt, link);
      var totaled := Clean(rt, total) != "";
      && e[0] == ("orderNumber", Str(Clean(rt, number))) && e[1] == ("orderDate", Str(Clean(rt, date)))
      && e[2].0 == "items" && e[2].1.Arr?
      && |e[2].1.items| == (if products.Arr? then |DictItems(products.items)| else 0)
      && |e| == 3 + (if l != "" then 1 else 0) + (if totaled then 1 else 0)
      && (l != "" ==> e[3] == ("link", Str(l)))
      && (totaled ==> e[|e| - 1] == ("total", total))
  {
    if products.Arr? {
      OverDictsIsMap(x => Obj(ProductEntry(rt, x)), products.items);
    }
  }

  /** The loop over an order's products. */
  method ConvertProducts(rt: Runtime, xs: seq<Json>) returns (items: seq<Json>)
    ensures items == Products(rt, xs)
  {
    items := [];
    for i := 0 to |xs|
      invariant items == Products(rt, xs[..i])
    {
      assert xs[..i + 1][..i] == xs[..i];
      var prod := xs[i];
      if !prod.Obj? {
        continue;
      }
      var item := [("name", Str(Clean(rt, Field(prod, "product_name", Null))))];
      var priceValue := Field(prod, "product_price", Field(prod, "price", Null));
      if Clean(rt, priceValue) != "" {
        item := item + [("price", priceValue)];
      }
      var prodLink := Clean(rt, Field(prod, "product_link", Null));
      if prodLink != "" {
        item := item + [("productLink", Str(prodLink))];
      }
      assert item == ProductEntry(rt, prod);
      items := items + [Obj(item)];
    }
    assert xs[..|xs|] == xs;
  }

  /** The loop over the orders column's list. */
  method ConvertOrders(rt: Runtime, xs: seq<Json>) returns (orders: seq<Json>)
    ensures orders == Orders(rt, xs)
  {
    orders := [];
    for i := 0 to |xs|
      invariant orders == Orders(rt, xs[..i])
    {
      assert xs[..i + 1][..i] == xs[..i];
      var order := xs[i];
      if !order.Obj? {
        continue;
      }
      var itemsOut := [];
      var products := Field(order, "products", Null);
      if products.Arr? {
        itemsOut := ConvertProducts(rt, products.items);
      }
      var entry := [("orderNumber", Str(Clean(rt, Field(order, "order_number", Null)))),
                    ("orderDate", Str(Clean(rt, Field(order, "order_date", Null)))),
                    ("items", Arr(itemsOut))];
      var orderLink := Clean(rt, Field(order, "order_status_url", Null));
      if orderLink != "" {
        entry := entry + [("link", Str(orderLink))];
      }
      if Clean(rt, Field(order, "total", Null)) != "" {
        entry := entry + [("total", Field(order, "total", Null))];
      }
      assert entry == OrderEntry(rt, order);
      orders := orders + [Obj(entry)];
    }
    assert xs[..|xs|] == xs;
  }

  // ---------------------------------------------------------------------------
  // The scenario

  /** The right panel: the website as source, then the products viewed and the orders when there are any. */
  function Panel(website: string, browsing: seq<Json>, orders: seq<Json>): Dict<Json>
  {
    var panel := [("source", Obj([("label", Str("Website")), ("value", Str(website)), ("date", Str(""))]))];
    var withBrowsing := if browsing != [] then panel + [("browsingHistory", Arr(browsing))] else panel;
    if orders != [] then withBrowsing + [("orders", Arr(orders))] else withBrowsing
  }

  /** The texts a list-like column becomes: `convert_to_string_array(parse_list_like_text(text))`. */
  function ListCell(rt: Runtime, row: Dict<Json>, column: string): seq<string>
  {
    StringArray(rt, Strs(ListLikeText(rt, NormalizeText(rt, Get(row, column, Null)))))
  }

  /** The scenario record, from its parts. */
  function Scenario(id: string, company: string, website: string, agent: string, tone: string,
                    conversation: seq<Json>, notes: Categories, panel: Dict<Json>,
                    escalation: seq<string>, blocklisted: seq<string>): Json
  {
    Obj([("id", Str(id)), ("companyName", Str(company)), ("companyWebsite", Str(website)),
         ("agentName", Str(agent)), ("messageTone", Str(tone)), ("conversation", Arr(conversation)),
         ("notes", NotesJson(notes)), ("rightPanel", Obj(panel)),
         ("escalation_preferences", Strs(escalation)), ("blocklisted_words", Strs(blocklisted))])
  }

  /** What `convert_csv_row_to_scenario(row)` returns. */
  function CsvScenario(rt: Runtime, row: Dict<Json>): Json
  {
    var website := Cell(rt, row, "COMPANY_WEBSITE");
    var panel := Panel(website, Browsing(rt, ListColumn(rt, row, "LAST_5_PRODUCTS")), Orders(rt, ListColumn(rt, row, "ORDERS")));
    var notes := CompanyNotes(rt, Clean(rt, Get(row, "COMPANY_NOTES", Str(""))));
    Scenario(Cell(rt, row, "SEND_ID"), Cell(rt, row, "COMPANY_NAME"), website, Cell(rt, row, "PERSONA"),
      Cell(rt, row, "MESSAGE_TONE"), Messages(rt, ListColumn(rt, row, "CONVERSATION_JSON")), notes, panel,
      ListCell(rt, row, "ESCALATION_TOPICS"), ListCell(rt, row, "BLOCKLISTED_WORDS"))
  }

  /**
   * The panel always has the website as its source, labelled `Website` and
   * undated; the products viewed and the orders follow exactly when there
   * are any.
   */
  lemma PanelShape(website: string, browsing: seq<Json>, orders: seq<Json>)
    ensures var p := Panel(website, browsing, orders);
      && p[0] == ("source", Obj([("label", Str("Website")), ("value", Str(website)), ("date", Str(""))]))
      && |p| == 1 + (if browsing != [] then 1 else 0) + (if orders != [] then 1 else 0)
      && (browsing != [] ==> p[1] == ("browsingHistory", Arr(browsing)))
      && (orders != [] ==> p[|p| - 1] == ("orders", Arr(orders)))
  {
  }

  /** The record's fields, in order. */
  lemma ScenarioKeys(id: string, company: string, website: string, agent: string, tone: string,
                     conversation: seq<Json>, notes: Categories, panel: Dict<Json>,
                     escalation: seq<string>, blocklisted: seq<string>)
    ensures Keys(Scenario(id, company, website, agent, tone, conversation, notes, panel, escalation, blocklisted).fields)
      == ["id", "companyName", "companyWebsite", "agentName", "messageTone", "conversation", "notes", "rightPanel",
          "escalation_preferences", "blocklisted_words"]
  {
  }

  /** The texts of a list-like column are stripped and non-blank, and none is `{}` or `[]`. */
  lemma ListCellClean(rt: Runtime, row: Dict<Json>, column: string)
    ensures CleanTexts(Strs(ListCell(rt, row, column)))
    ensures forall i :: 0 <= i < |ListCell(rt, row, column)| ==> Kept(ListCell(rt, row, column)[i])
  {
    KeptTextsTrimmed(rt, ItemsOf(Strs(ListLikeText(rt, NormalizeText(rt, Get(row, column, Null))))));
  }

  /**
   * Of the record a row becomes: its id is the cleaned `SEND_ID` cell, its
   * panel is the one built from the website and the two list columns of
   * products and orders, and its list fields are clean.
   */
  lemma CsvScenarioShape(rt: Runtime, row: Dict<Json>)
    ensures var r := CsvScenario(rt, row);
      && r.Obj? && |r.fields| == 10
      && r.fields[0] == ("id", Str(Cell(rt, row, "SEND_ID")))
      && r.fields[7].1 == Obj(Panel(Cell(rt, row, "COMPANY_WEBSITE"), Browsing(rt, ListColumn(rt, row, "LAST_5_PRODUCTS")),
                                    Orders(rt, ListColumn(rt, row, "ORDERS"))))
      && CleanTexts(r.fields[8].1) && CleanTexts(r.fields[9].1)
  {
    ListCellClean(rt, row, "ESCALATION_TOPICS");
    ListCellClean(rt, row, "BLOCKLISTED_WORDS");
  }

  /** `right_panel`, built up entry by entry. */
  method BuildPanel(website: string, browsing: seq<Json>, orders: seq<Json>) returns (panel: Dict<Json>)
    ensures panel == Panel(website, browsing, orders)
  {
    panel := [("source", Obj([("label", Str("Website")), ("value", Str(website)), ("date", Str(""))]))];
    if browsing != [] {
      panel := panel + [("browsingHistory", Arr(browsing))];
    }
    if orders != [] {
      panel := panel + [("orders", Arr(orders))];
    }
  }

  /** `convert_to_string_array(parse_list_like_text(normalize_text(row.get(column))))` */
  method ConvertListCell(rt: Runtime, row: Dict<Json>, column: string) returns (texts: seq<string>)
    ensures texts == ListCell(rt, row, column)
  {
    var parsed := ParseListLikeText(rt, NormalizeText(rt, Get(row, column, Null)));
    texts := ConvertToStringArray(rt, Strs(parsed));
  }

  /** `convert_csv_row_to_scenario(row)` */
  method ConvertCsvRowToScenario(rt: Runtime, row: Dict<Json>) returns (scenario: Json)
    ensures scenario == CsvScenario(rt, row)
  {
    var conversation := [];
    var conversationParsed := ParseJsonText(rt, NormalizeText(rt, Get(row, "CONVERSATION_JSON", Str(""))));
    if conversationParsed.Arr? {
      conversation := ConvertConversation(rt, conversationParsed.items);
    }
    var browsingHistory := [];
    var productsParsed := ParseJsonText(rt, NormalizeText(rt, Get(row, "LAST_5_PRODUCTS", Str(""))));
    if productsParsed.Arr? {
      browsingHistory := ConvertBrowsing(rt, productsParsed.items);
    }
    var ordersOut := [];
    var ordersParsed := ParseJsonText(rt, NormalizeText(rt, Get(row, "ORDERS", Str(""))));
    if ordersParsed.Arr? {
      ordersOut := ConvertOrders(rt, ordersParsed.items);
    }
    var website := Clean(rt, Get(row, "COMPANY_WEBSITE", Null));
    var rightPanel := BuildPanel(website, browsingHistory, ordersOut);
    var notes := ParseCompanyNotesToCategories(rt, Clean(rt, Get(row, "COMPANY_NOTES", Str(""))));
    var escalation := ConvertListCell(rt, row, "ESCALATION_TOPICS");
    var blocklisted := ConvertListCell(rt, row, "BLOCKLISTED_WORDS");
    scenario := Scenario(Clean(rt, Get(row, "SEND_ID", Null)), Clean(rt, Get(row, "COMPANY_NAME", Null)), website,
      Clean(rt, Get(row, "PERSONA", Null)), Clean(rt, Get(row, "MESSAGE_TONE", Null)), conversation, notes,
      rightPanel, escalation, blocklisted);
  }
}
