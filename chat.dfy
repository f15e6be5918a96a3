/** The assistant's canned replies (resolvers/chatResolvers.ts): the
    lower-cased message is tested for keywords in a fixed order and the
    first group that matches picks the reply. The reply's id, timestamp and
    the simulated delay are left out or passed in. */
module Chat {
  import opened Common

  /** Which reply a message gets, in priority order. */
  datatype Intent = Greeting | OrderHelp | MenuHelp | GeneralHelp | Echo

  const GreetingReply: string := "Hello! How can I help you with your order today?"
  const OrderReply: string := "You can check your order status in the Orders tab. Is there anything else?"
  const MenuReply: string := "We have a great selection of restaurants! Browse them on the homepage."
  const HelpReply: string := "I'm here to assist! You can ask about orders, menus, or account settings."
  const BotSender: string := "AI Assistant"

  datatype ChatMessage = ChatMessage(id: string, sender: string, text: string, timestamp: string, isBot: bool)

  /** The keyword tests, on the lower-cased text, by substring. */
  predicate Greets(lower: string) { Contains(lower, "hello") || Contains(lower, "hi") }
  predicate AsksOrder(lower: string) { Contains(lower, "status") || Contains(lower, "order") }
  predicate AsksMenu(lower: string) { Contains(lower, "menu") || Contains(lower, "food") }
  predicate AsksHelp(lower: string) { Contains(lower, "help") }

  /** The if/else-if chain: the first matching group wins. */
  function Classify(text: string): Intent {
    var lower := Lower(text);
    if Greets(lower) then Greeting
    else if AsksOrder(lower) then OrderHelp
    else if AsksMenu(lower) then MenuHelp
    else if AsksHelp(lower) then GeneralHelp
    else Echo
  }

  /** The echo reply quotes the message as typed, not lower-cased. */
  function EchoReply(text: string): string {
    "I processed: \"" + text + "\". How else can I assist?"
  }

  function ReplyText(text: string): string {
    match Classify(text)
    case Greeting => GreetingReply
    case OrderHelp => OrderReply
    case MenuHelp => MenuReply
    case GeneralHelp => HelpReply
    case Echo => EchoReply(text)
  }

  /** sendMessage: always a bot message from the assistant. */
  function SendMessage(text: string, id: string, timestamp: string): (m: ChatMessage)
    ensures m.isBot && m.sender == BotSender && m.id == id && m.timestamp == timestamp
    ensures Classify(text) != Echo ==> m.text in {GreetingReply, OrderReply, MenuReply, HelpReply}
    ensures Classify(text) == Echo ==> Contains(m.text, text)
  {
    EchoQuotesText(text);
    ChatMessage(id, BotSender, ReplyText(text), timestamp, true)
  }

  /** The echo reply contains the message exactly as typed. */
  lemma EchoQuotesText(text: string)
    ensures Contains(EchoReply(text), text)
  {
    var prefix := "I processed: \"";
    var r := EchoReply(text);
    assert r[|prefix|..|prefix| + |text|] == text;
    ContainsAt(r, text, |prefix|);
  }

  /** Matching ignores letter case: a message and its lower-cased form get
      the same kind of reply. */
  lemma ClassifyIgnoresCase(text: string)
    ensures Classify(Lower(text)) == Classify(text)
  {
    LowerOfLower(Lower(text));
  }

  /** The priority order: a group is chosen exactly when it matches and no
      earlier group does, so a greeting keyword outranks all the others. */
  lemma PriorityOrder(text: string)
    ensures var lower := Lower(text);
      && (Classify(text) == Greeting <==> Greets(lower))
      && (Classify(text) == OrderHelp <==> !Greets(lower) && AsksOrder(lower))
      && (Classify(text) == MenuHelp <==> !Greets(lower) && !AsksOrder(lower) && AsksMenu(lower))
      && (Classify(text) == GeneralHelp <==>
            !Greets(lower) && !AsksOrder(lower) && !AsksMenu(lower) && AsksHelp(lower))
      && (Classify(text) == Echo <==>
            !Greets(lower) && !AsksOrder(lower) && !AsksMenu(lower) && !AsksHelp(lower))
  {
  }

  /** Matching is by substring: "hi" inside another word, as in "which",
      selects the greeting even when the message is about an order. */
  lemma HiInsideWordGreets()
    ensures Classify("Which ORDER is mine?") == Greeting
  {
    var text := "Which ORDER is mine?";
    var lower := Lower(text);
    assert text[1] == 'h' && text[2] == 'i';
    assert lower[1..3] == [lower[1], lower[2]] == "hi";
    ContainsAt(lower, "hi", 1);
  }

  /** A message with no keyword at all is echoed back, quoted as typed. */
  lemma NoKeywordEchoes(text: string)
    requires !Greets(Lower(text)) && !AsksOrder(Lower(text)) && !AsksMenu(Lower(text)) && !AsksHelp(Lower(text))
    ensures SendMessage(text, "", "").text == EchoReply(text)
  {
  }
}
