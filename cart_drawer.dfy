/** The cart drawer: how each selected photo is named, the WhatsApp order
    message and link built at checkout, the upsell banner and the tier bar. */
module CartDrawer {
  import opened Wrappers
  import opened Text
  import opened Types
  import opened CartContext

  const WhatsAppNumber := "5531993430851"

  /** The link opened at checkout, before the encoded message. */
  const WhatsAppLink := "https://wa.me/" + WhatsAppNumber + "?text="

  // ------------------------------------------------------------ photo names

  /** `id.substring(0, 5)`. */
  function IdPrefix(id: string): (r: string)
    ensures IsPrefix(r, id)
    ensures |r| == if |id| < 5 then |id| else 5
  {
    if |id| <= 5 then id else id[..5]
  }

  /** The name a photo is ordered by: its original file name, else its
      display id, else the first five characters of its id in upper case. */
  function ReferenceName(p: Photo): (name: string)
    ensures name == "" <==>
      OrElse(p.originalName, "") == "" && OrElse(p.displayId, "") == "" && p.id == ""
    ensures OrElse(p.originalName, "") != "" ==> name == p.originalName.value
    ensures OrElse(p.originalName, "") == "" && OrElse(p.displayId, "") != "" ==> name == p.displayId.value
    ensures OrElse(p.originalName, "") == "" && OrElse(p.displayId, "") == "" ==> name == ToUpper(IdPrefix(p.id))
  {
    OrElse(p.originalName, OrElse(p.displayId, ToUpper(IdPrefix(p.id))))
  }

  /** A character the extension pattern `[^/.]` accepts. */
  predicate IsExtensionChar(c: char) {
    c != '.' && c != '/'
  }

  /** Position `k` of `s` holds the dot that starts a file extension: a '.'
      followed by at least one character, none of them '.' or '/', up to the
      end. */
  ghost predicate IsExtensionDot(s: string, k: int) {
    0 <= k < |s| - 1 && s[k] == '.' &&
    forall i :: k < i < |s| ==> IsExtensionChar(s[i])
  }

  /** Length of the longest tail of `s` made of extension characters. */
  function ExtensionRun(s: string): (n: nat)
    ensures n <= |s|
    ensures forall i :: |s| - n <= i < |s| ==> IsExtensionChar(s[i])
    ensures n < |s| ==> !IsExtensionChar(s[|s| - n - 1])
    decreases |s|
  {
    if |s| > 0 && IsExtensionChar(s[|s| - 1]) then 1 + ExtensionRun(s[..|s| - 1]) else 0
  }

  /** `name.replace(/\.[^/.]+$/, "")`: drop a final ".ext", if there is one. */
  function StripExtension(s: string): (r: string)
    ensures IsPrefix(r, s)
    ensures r == s || IsExtensionDot(s, |r|)
    ensures (exists k :: IsExtensionDot(s, k)) ==> r != s
  {
    var n := ExtensionRun(s);
    if 0 < n < |s| && s[|s| - n - 1] == '.' then
      s[..|s| - n - 1]
    else
      s
  }

  /** A name made of a stem and an extension loses exactly the extension. */
  lemma StripExtensionOf(stem: string, ext: string)
    requires |ext| > 0
    requires forall i :: 0 <= i < |ext| ==> IsExtensionChar(ext[i])
    ensures StripExtension(stem + "." + ext) == stem
  {
    var s := stem + "." + ext;
    assert IsExtensionDot(s, |stem|);
    var r := StripExtension(s);
  }

  /** The name shown for a photo, in the drawer and in the order message. */
  function CleanName(p: Photo): string {
    StripExtension(ReferenceName(p))
  }

  /** "[event] " before the name when the photo carries an event name. */
  function EventPrefix(p: Photo): string {
    if OrElse(p.eventName, "") != "" then "[" + p.eventName.value + "] " else ""
  }

  /** One line of the order: a check mark and the name in bold, after the
      event prefix when the photo carries an event name. */
  function ChoiceLine(p: Photo): (line: string)
    ensures Contains(line, CleanName(p))
    ensures OrElse(p.eventName, "") != "" ==> Contains(line, "[" + p.eventName.value + "] ")
    ensures OrElse(p.eventName, "") == "" ==> line == "\U{2705} *" + CleanName(p) + "*"
    ensures OrElse(p.eventName, "") != "" ==>
      line == "\U{2705} *" + "[" + p.eventName.value + "] " + CleanName(p) + "*"
  {
    ChoiceLineFrame("\U{2705} *", OrElse(p.eventName, ""), EventPrefix(p), CleanName(p), "*");
    "\U{2705} *" + EventPrefix(p) + CleanName(p) + "*"
  }

  lemma ChoiceLineFrame(mark: string, event: string, prefix: string, name: string, close: string)
    requires prefix == if event != "" then "[" + event + "] " else ""
    ensures Contains(mark + prefix + name + close, name)
    ensures Contains(mark + prefix + name + close, prefix)
    ensures event == "" ==> mark + prefix + name + close == mark + name + close
    ensures event != "" ==> mark + prefix + name + close == mark + "[" + event + "] " + name + close
  {
    ContainsInfix(mark + prefix, name, close);
    ContainsInfix(mark, prefix, name + close);
    ConcatAssociative(mark + prefix, name, close);
    if event == "" {
      assert mark + prefix == mark;
    } else {
      ConcatAssociative(mark, "[" + event, "] ");
      ConcatAssociative(mark, "[", event);
    }
  }

  function ChoiceLines(items: seq<Photo>): (lines: seq<string>)
    ensures |lines| == |items|
    ensures forall i :: 0 <= i < |items| ==> lines[i] == ChoiceLine(items[i])
  {
    seq(|items|, i requires 0 <= i < |items| => ChoiceLine(items[i]))
  }

  /** The list of choices: one line per photo, in cart order. */
  function ChoiceList(items: seq<Photo>): string {
    Join(ChoiceLines(items), "\n")
  }

  /** The names a photo's line is built from hold no line break. */
  predicate SingleLineNames(p: Photo) {
    '\n' !in OrElse(p.originalName, "") && '\n' !in OrElse(p.displayId, "") &&
    '\n' !in p.id && '\n' !in OrElse(p.eventName, "")
  }

  lemma ChoiceLineIsOneLine(p: Photo)
    requires SingleLineNames(p)
    ensures '\n' !in ChoiceLine(p)
  {
    var up := ToUpper(IdPrefix(p.id));
    assert '\n' !in up by {
      forall i | 0 <= i < |up|
        ensures up[i] != '\n'
      {
        assert IdPrefix(p.id)[i] in p.id;
      }
    }
    var name := ReferenceName(p);
    assert '\n' !in name;
    var clean := CleanName(p);
    assert '\n' !in clean by {
      forall i | 0 <= i < |clean|
        ensures clean[i] != '\n'
      {
        assert clean[i] == name[i];
        assert name[i] in name;
      }
    }
  }

  /** Reading the list back line by line gives one line per photo, in order,
      as long as no name holds a line break. */
  lemma ChoiceListLines(items: seq<Photo>)
    requires |items| >= 1
    requires forall i :: 0 <= i < |items| ==> SingleLineNames(items[i])
    ensures Split(ChoiceList(items), '\n') == ChoiceLines(items)
  {
    var lines := ChoiceLines(items);
    forall i | 0 <= i < |lines|
      ensures '\n' !in lines[i]
    {
      ChoiceLineIsOneLine(items[i]);
    }
    SplitJoin(lines, '\n');
  }

  // ------------------------------------------------------- the order message

  const Greeting := "Ol\U{E1}! Quero liberar minhas fotos em alta resolu\U{E7}\U{E3}o da *Remaking Agency*.\n    \n*Minhas Escolhas:*\n"
  const Closing := "\n\nPoderia me enviar a chave PIX?"

  function CountLine(count: nat): string {
    "\U{1F5BC}\U{FE0F} " + NatToString(count) + " fotos selecionadas"
  }

  function UnitLine(unitPrice: nat): string {
    "\U{1F3F7}\U{FE0F} Valor Unit\U{E1}rio: R$ " + Fixed2(unitPrice)
  }

  function TotalLine(total: nat): string {
    "\U{1F4B0} Valor Final: *R$ " + Fixed2(total) + "*"
  }

  function SavingsLine(discount: nat): string {
    "\U{1F525} Economia de: R$ " + Fixed2(discount)
  }

  /** The pieces of the message template up to the summary's last line
      break, in order: the greeting, the list and the summary lines. */
  function BodyParts(items: seq<Photo>): (parts: seq<string>)
    ensures |parts| == 9 && parts[0] == Greeting && parts[8] == "\n"
  {
    var p := PricingOf(|items|);
    [Greeting, ChoiceList(items), "\n\n*Resumo:*\n",
     CountLine(|items|), "\n", UnitLine(p.unitPrice), "\n", TotalLine(p.total), "\n"]
  }

  /** The savings line, present only when there is a discount. */
  function SavingsPart(discount: nat): string {
    if discount > 0 then SavingsLine(discount) else ""
  }

  /** The order message sent at checkout: the template's pieces in a row,
      opening with the greeting and ending with the request for the PIX key. */
  function CheckoutMessage(items: seq<Photo>): (message: string)
    ensures IsPrefix(Greeting, message) && IsSuffix(Closing, message)
  {
    var body := Join(BodyParts(items), "");
    var savings := SavingsPart(PricingOf(|items|).discount);
    MessageFrame(BodyParts(items), savings, Closing);
    body + savings + Closing
  }

  /** A message made of joined pieces, an optional line and a closing starts
      with the first piece and ends with the closing. */
  lemma MessageFrame(parts: seq<string>, savings: string, closing: string)
    requires |parts| > 1
    ensures IsPrefix(parts[0], Join(parts, "") + savings + closing)
    ensures IsSuffix(closing, Join(parts, "") + savings + closing)
  {
    var first := parts[0];
    var rest := Join(parts[1..], "");
    assert Join(parts, "") == first + "" + rest;
    assert first + "" == first;
    ConcatAssociative(first, rest, savings);
    ConcatAssociative(first, rest + savings, closing);
    PrefixOfConcat(first, rest + savings + closing);
    SuffixOfConcat(Join(parts, "") + savings, closing);
  }

  lemma PrefixOfConcat(a: string, b: string)
    ensures IsPrefix(a, a + b)
  {
    assert (a + b)[..|a|] == a;
  }

  lemma SuffixOfConcat(a: string, b: string)
    ensures IsSuffix(b, a + b)
  {
    assert (a + b)[|a|..] == b;
  }

  /** Whatever the body holds can be found in the whole message. */
  lemma BodyPartInMessage(items: seq<Photo>, k: nat)
    requires k < 9
    ensures Contains(CheckoutMessage(items), BodyParts(items)[k])
  {
    var body := Join(BodyParts(items), "");
    var savings := SavingsPart(PricingOf(|items|).discount);
    JoinContainsPart(BodyParts(items), "", k);
    ContainsExtended(body, savings + Closing, BodyParts(items)[k]);
    assert body + (savings + Closing) == CheckoutMessage(items);
  }

  /** Every photo in the cart is named in the message. */
  lemma CheckoutListsEveryItem(items: seq<Photo>, i: nat)
    requires i < |items|
    ensures Contains(CheckoutMessage(items), ChoiceLine(items[i]))
    ensures Contains(CheckoutMessage(items), CleanName(items[i]))
  {
    var m := CheckoutMessage(items);
    BodyPartInMessage(items, 1);
    JoinContainsPart(ChoiceLines(items), "\n", i);
    ContainsTransitive(m, ChoiceList(items), ChoiceLine(items[i]));
    ContainsTransitive(m, ChoiceLine(items[i]), CleanName(items[i]));
  }

  /** The message states the number of photos, the unit price and the
      total the cart computed. */
  lemma CheckoutStatesFigures(items: seq<Photo>)
    ensures Contains(CheckoutMessage(items), CountLine(|items|))
    ensures Contains(CheckoutMessage(items), UnitLine(UnitPrice(|items|)))
    ensures Contains(CheckoutMessage(items), TotalLine(PricingOf(|items|).total))
  {
    BodyPartInMessage(items, 3);
    BodyPartInMessage(items, 5);
    BodyPartInMessage(items, 7);
  }

  /** A line that does not end in a line break closes a text exactly when it
      was put there. */
  lemma OptionalLineAtEnd(x: string, line: string, closing: string, present: bool)
    requires |line| > 0 && line[|line| - 1] != '\n'
    ensures IsSuffix(line + closing, x + "\n" + (if present then line else "") + closing) <==> present
  {
    var m := x + "\n" + (if present then line else "") + closing;
    if present {
      assert m == (x + "\n") + (line + closing);
    } else {
      assert m == (x + "\n") + closing;
      var tail := line + closing;
      if |tail| <= |m| {
        var i := |tail| - |closing| - 1;
        assert m[|m| - |tail|..][i] == '\n';
        assert tail[i] == line[|line| - 1];
        assert m[|m| - |tail|..] != tail;
      }
    }
  }

  /** The message closes with the savings line exactly when the cart has a
      discount. */
  lemma CheckoutSavingsIffDiscount(items: seq<Photo>)
    ensures IsSuffix(SavingsLine(PricingOf(|items|).discount) + Closing, CheckoutMessage(items))
        <==> PricingOf(|items|).discount > 0
  {
    var d := PricingOf(|items|).discount;
    var parts := BodyParts(items);
    ConcatSnoc(parts[..8], "\n");
    assert parts[..8] + ["\n"] == parts;
    var f := Fixed2(d);
    assert f[|f| - 1] == '0';
    var line := SavingsLine(d);
    assert line[|line| - 1] == '0';
    OptionalLineAtEnd(Join(parts[..8], ""), line, Closing, d > 0);
  }

  /** `handleCheckout`: the link it opens. `encode` stands for
      `encodeURIComponent`. */
  function CheckoutUrl(items: seq<Photo>, encode: string -> string): (url: string)
    ensures IsPrefix(WhatsAppLink, url)
  {
    WhatsAppLink + encode(CheckoutMessage(items))
  }

  /** The text after the link's prefix decodes back to the order message. */
  lemma CheckoutUrlRoundTrip(items: seq<Photo>, encode: string -> string, decode: string -> string)
    requires forall s :: decode(encode(s)) == s
    ensures decode(CheckoutUrl(items, encode)[|WhatsAppLink|..]) == CheckoutMessage(items)
  {
    var url := CheckoutUrl(items, encode);
    assert url[|WhatsAppLink|..] == encode(CheckoutMessage(items));
  }

  // ------------------------------------------------------------ the upsell

  /** Photos still to add to reach the next price tier; 0 at the last tier. */
  function ItemsNeeded(count: nat): (needed: nat)
    ensures needed == 0 <==> count >= 6
  {
    if count < 3 then 3 - count else if count < 6 then 6 - count else 0
  }

  /** The banner's count is the fewest photos that lower the unit price. */
  lemma ItemsNeededReachesNextTier(count: nat)
    requires ItemsNeeded(count) > 0
    ensures UnitPrice(count + ItemsNeeded(count)) < UnitPrice(count)
    ensures forall c: nat :: count <= c < count + ItemsNeeded(count) ==> UnitPrice(c) == UnitPrice(count)
  {
  }

  /** The price advertised in the upsell banner. */
  /** The advertised price is what each photo costs once the needed photos
      are added. */
  function NextPriceLabel(count: nat): (price: string)
    ensures ItemsNeeded(count) > 0 ==>
      price == "R$ " + NatToString(UnitPrice(count + ItemsNeeded(count))) + ",00"
  {
    if count < 3 then "R$ 7,00" else "R$ 5,00"
  }

  // ----------------------------------------------------------- the drawer

  /** One row of the items list, with the id its remove button removes. */
  datatype ItemRow = ItemRow(name: string, caption: string, price: string, removes: string)

  datatype DrawerView = DrawerView(
    triggerVisible: bool,
    overlayActive: bool,
    panelOpen: bool,
    upsell: Option<(nat, string)>,
    rows: seq<ItemRow>,
    tiersLit: seq<bool>,
    subtotal: string,
    savings: Option<string>,
    total: string,
    checkoutUrl: string)

  function Row(p: Photo, unitPrice: nat): ItemRow {
    ItemRow(CleanName(p), OrElse(p.caption, "Pickleball Action"), Fixed2(unitPrice), p.id)
  }

  function Rows(items: seq<Photo>, unitPrice: nat): (rows: seq<ItemRow>)
    ensures |rows| == |items|
    ensures forall i :: 0 <= i < |items| ==> rows[i] == Row(items[i], unitPrice)
  {
    seq(|items|, i requires 0 <= i < |items| => Row(items[i], unitPrice))
  }

  /** What the drawer renders for a cart: nothing for an empty cart. */
  function Drawer(items: seq<Photo>, isCartOpen: bool, encode: string -> string): (v: Option<DrawerView>)
    ensures v.None? <==> |items| == 0
    ensures v.Some? ==>
      v.value.triggerVisible == !isCartOpen && v.value.overlayActive == isCartOpen &&
      v.value.panelOpen == isCartOpen
    ensures v.Some? ==> (v.value.upsell.Some? <==> |items| < 6)
    ensures v.Some? ==> (v.value.savings.Some? <==> |items| >= 3)
    ensures v.Some? ==> (|v.value.rows| == |items| &&
      forall i :: 0 <= i < |items| ==> v.value.rows[i].removes == items[i].id)
  {
    var count := |items|;
    if count == 0 then None
    else
      var p := PricingOf(count);
      var needed := ItemsNeeded(count);
      Some(DrawerView(
        !isCartOpen,
        isCartOpen,
        isCartOpen,
        if needed > 0 then Some((needed, NextPriceLabel(count))) else None,
        Rows(items, p.unitPrice),
        [count > 0, count >= 3, count >= 6],
        Fixed2(p.subtotal),
        if p.discount > 0 then Some(Fixed2(p.discount)) else None,
        Fixed2(p.total),
        CheckoutUrl(items, encode)))
  }

  /** The tier bar lights a segment exactly when the cart's unit price is at
      most that segment's price. */
  lemma TierBarMatchesPrice(items: seq<Photo>, isCartOpen: bool, encode: string -> string)
    requires |items| > 0
    ensures Drawer(items, isCartOpen, encode).Some?
    ensures Drawer(items, isCartOpen, encode).value.tiersLit ==
      [UnitPrice(|items|) <= BasePrice, UnitPrice(|items|) <= 7, UnitPrice(|items|) <= 5]
  {
  }

  /** Each row's name is the one the order message uses for that photo. */
  lemma DrawerNamesInMessage(items: seq<Photo>, isCartOpen: bool, encode: string -> string, i: nat)
    requires i < |items|
    ensures Drawer(items, isCartOpen, encode).Some?
    ensures Contains(CheckoutMessage(items), Drawer(items, isCartOpen, encode).value.rows[i].name)
  {
    CheckoutListsEveryItem(items, i);
  }
}
