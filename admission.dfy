/**
 * The new-member admission challenge of the bot (main.py): a member who joins
 * a moderated chat is muted and shown a 4x4 keyboard of food buttons; pressing
 * the glass of milk (`leche`) restores the member's permissions, any other
 * button puts the member in quarantine.
 *
 * Calls to the chat platform are recorded as `Action` values appended to the
 * trace of a `ChatBot`; the randomness of `random.shuffle` is a parameter.
 */
module Admission {
  import opened Wrappers
  import Text

  // ---------------------------------------------------------------- entities

  /** A Telegram user as the handlers see it. */
  datatype Member = Member(id: int, firstName: string)

  /** `ChatPermissions` with the four send rights the handlers set. */
  datatype Permissions = Permissions(
    canSendMessages: bool,
    canSendMediaMessages: bool,
    canSendOtherMessages: bool,
    canAddWebPagePreviews: bool)

  /** The rights a newcomer keeps while the challenge is open: none. */
  const MUTED := Permissions(false, false, false, false)

  /** The rights given back to a member who passes the challenge. */
  const UNMUTED := Permissions(true, true, true, true)

  /** `InlineKeyboardButton(text, callback_data=...)`. */
  datatype Button = Button(text: string, callbackData: string)

  /** The rows of an `InlineKeyboardMarkup`. */
  type Keyboard = seq<seq<Button>>

  /** A call to the chat platform. */
  datatype Action =
    | RestrictChatMember(chatId: int, userId: int, permissions: Permissions)
    | SendMessage(chatId: int, text: string, markup: Option<Keyboard>)
    | DeleteMessage(chatId: int, messageId: int)
    | EditMessageText(chatId: int, messageId: int, text: string)

  // ---------------------------------------------------------------- messages

  /** `TEST_MESSAGE.format(name)`. */
  function TestMessage(name: string): (text: string)
    ensures Text.OccursAt(text, name, 5)
  {
    var text := "Hola " + name + ", necesitamos comprobar que no eres un bot, por favor elige la bebida que hay en el men\U{FA}.";
    assert text[5..5 + |name|] == name;
    text
  }

  /** `WELCOME_MESSAGE.format(name)`. */
  function WelcomeMessage(name: string): (text: string)
    ensures Text.OccursAt(text, name, 47)
  {
    var text := "Has superado la prueba.Te damos la bienvenida, " + name + "!!! \nPara cualquier duda mira el mensaje anclado, por favor.";
    assert text[47..47 + |name|] == name;
    text
  }

  /** The text the challenge is edited into when the wrong button is pressed. */
  function QuarantineNotice(name: string): (text: string)
    ensures Text.OccursAt(text, name, 13)
  {
    var text := "\U{1F6A8} El usuario " + name + " es sospechoso y fue puesto en cuarentena! \U{1F6A8}";
    assert text[13..13 + |name|] == name;
    text
  }

  /** A message made of a fixed text around a name determines the name. */
  lemma NameDetermined(pre: string, n1: string, n2: string, post: string)
    requires pre + n1 + post == pre + n2 + post
    ensures n1 == n2
  {
    var s := pre + n1 + post;
    assert |n1| == |n2|;
    assert s[|pre|..|pre| + |n1|] == n1;
    assert (pre + n2 + post)[|pre|..|pre| + |n2|] == n2;
  }

  /** Each of the three messages names exactly one person. */
  lemma MessagesNameOnePerson(n1: string, n2: string)
    ensures TestMessage(n1) == TestMessage(n2) ==> n1 == n2
    ensures WelcomeMessage(n1) == WelcomeMessage(n2) ==> n1 == n2
    ensures QuarantineNotice(n1) == QuarantineNotice(n2) ==> n1 == n2
  {
    if TestMessage(n1) == TestMessage(n2) {
      NameDetermined("Hola ", n1, n2, ", necesitamos comprobar que no eres un bot, por favor elige la bebida que hay en el men\U{FA}.");
    }
    if WelcomeMessage(n1) == WelcomeMessage(n2) {
      NameDetermined("Has superado la prueba.Te damos la bienvenida, ", n1, n2, "!!! \nPara cualquier duda mira el mensaje anclado, por favor.");
    }
    if QuarantineNotice(n1) == QuarantineNotice(n2) {
      NameDetermined("\U{1F6A8} El usuario ", n1, n2, " es sospechoso y fue puesto en cuarentena! \U{1F6A8}");
    }
  }

  // ---------------------------------------------------------------- the sixteen buttons

  /** Number of buttons on the challenge keyboard. */
  const NUM_ITEMS: nat := 16

  /** The callback tokens of the buttons, in the order `get_keyboard_markup` lists them. */
  const TOKENS: seq<string> := [
    "bistec", "kiwi", "leche", "bacon", "coco", "donut", "taco", "pizza",
    "ensalada", "pl\U{E1}tano", "casta\U{F1}a", "chupachups", "aguacate", "pollo", "sandwich", "pepino"]

  /** The emoji shown on each button, in the same order. */
  const GLYPHS: seq<string> := [
    "\U{1F969}", "\U{1F95D}", "\U{1F95B}", "\U{1F953}", "\U{1F965}", "\U{1F369}", "\U{1F32E}", "\U{1F355}",
    "\U{1F957}", "\U{1F34C}", "\U{1F330}", "\U{1F36D}", "\U{1F951}", "\U{1F357}", "\U{1F96A}", "\U{1F952}"]

  /** The token that passes the challenge. */
  const ANSWER := "leche"

  /** Position of the glass of milk in the unshuffled list. */
  const ANSWER_INDEX: nat := 2

  /** The callback payload `f'{member.id},{member.first_name},{token}'`. */
  function Payload(m: Member, token: string): string
  {
    Text.IntToString(m.id) + "," + m.firstName + "," + token
  }

  /** The sixteen buttons of `keyboard_items`, before shuffling. */
  function KeyboardItems(m: Member): (items: seq<Button>)
    ensures |items| == NUM_ITEMS
    ensures forall k :: 0 <= k < NUM_ITEMS ==> items[k] == Button(GLYPHS[k], Payload(m, TOKENS[k]))
  {
    seq(NUM_ITEMS, k requires 0 <= k < NUM_ITEMS => Button(GLYPHS[k], Payload(m, TOKENS[k])))
  }

  /** Exactly one token is the answer. */
  lemma OneAnswerToken()
    ensures |TOKENS| == NUM_ITEMS && |GLYPHS| == NUM_ITEMS
    ensures forall k :: 0 <= k < NUM_ITEMS ==> (TOKENS[k] == ANSWER <==> k == ANSWER_INDEX)
  {
  }

  /** The sixteen glyphs are sixteen different single characters. */
  lemma GlyphsDistinct()
    ensures forall j, k :: 0 <= j < k < NUM_ITEMS ==> GLYPHS[j] != GLYPHS[k]
  {
    var cs := seq(NUM_ITEMS, k requires 0 <= k < NUM_ITEMS => GLYPHS[k][0]);
    assert forall k :: 0 <= k < NUM_ITEMS ==> GLYPHS[k] == [cs[k]];
    assert forall j, k :: 0 <= j < k < NUM_ITEMS ==> cs[j] < cs[k] || cs[j] > cs[k];
  }

  /** A member's sixteen buttons are pairwise different. */
  lemma ItemsDistinct(m: Member)
    ensures forall j, k :: 0 <= j < k < NUM_ITEMS ==> KeyboardItems(m)[j] != KeyboardItems(m)[k]
  {
    GlyphsDistinct();
  }

  /** Equal messages with the same fixed start end alike. */
  lemma SuffixDetermined(pre: string, t1: string, t2: string)
    requires pre + t1 == pre + t2
    ensures t1 == t2
  {
    assert t1 == (pre + t1)[|pre|..];
    assert t2 == (pre + t2)[|pre|..];
  }

  /** Only the answer button carries the answer token in its payload. */
  lemma AnswerButtonOnly(m: Member, k: nat)
    requires k < NUM_ITEMS
    ensures KeyboardItems(m)[k].callbackData == Payload(m, ANSWER) <==> k == ANSWER_INDEX
  {
    if Payload(m, TOKENS[k]) == Payload(m, ANSWER) {
      SuffixDetermined(Text.IntToString(m.id) + "," + m.firstName + ",", TOKENS[k], ANSWER);
    }
  }

  // ---------------------------------------------------------------- payload decoding

  /**
   * What `button_pressed` reads back from a payload the keyboard carries:
   * field 0 parses to the member id, and field 1 is the first name up to its
   * first comma, so it is the whole name exactly when the name has no comma.
   */
  lemma PayloadFields(m: Member, token: string)
    ensures var parts := Text.Split(Payload(m, token), ',');
      |parts| >= 2 && Text.ParseInt(parts[0]) == Some(m.id) &&
      parts[1] == Text.Before(m.firstName, ',') &&
      (parts[1] == m.firstName <==> ',' !in m.firstName)
  {
    var idText := Text.IntToString(m.id);
    var rest := m.firstName + "," + token;
    assert ',' !in idText;
    assert Payload(m, token) == idText + [','] + rest;
    Text.SplitSeparated(idText, ',', rest);
    Text.SplitHead(rest, ',');
    assert rest == m.firstName + [','] + token;
    Text.BeforeSeparated(m.firstName, ',', token);
    Text.BeforeIsPrefix(m.firstName, ',');
    Text.ParseIntToString(m.id);
  }

  /**
   * `'leche' in query.data` over a generated payload: the answer occurs when it
   * is in the name or in the token, never in the id or across a comma.
   */
  lemma PayloadHoldsAnswer(m: Member, token: string)
    ensures Text.Contains(Payload(m, token), ANSWER) <==>
      Text.Contains(m.firstName, ANSWER) || Text.Contains(token, ANSWER)
  {
    var idText := Text.IntToString(m.id);
    var rest := m.firstName + "," + token;
    assert Payload(m, token) == idText + [','] + rest;
    assert rest == m.firstName + [','] + token;
    Text.ContainsAcrossSeparator(idText, ',', rest, ANSWER);
    Text.ContainsAcrossSeparator(m.firstName, ',', token, ANSWER);
    assert ANSWER[0] !in idText;
    Text.NotContainsForeign(idText, ANSWER);
  }

  /** Of the sixteen tokens only `leche` holds the answer. */
  lemma TokensHoldingAnswer(k: nat)
    requires k < NUM_ITEMS
    ensures Text.Contains(TOKENS[k], ANSWER) <==> k == ANSWER_INDEX
  {
    var t := TOKENS[k];
    if k == ANSWER_INDEX {
      assert Text.OccursAt(t, ANSWER, 0);
    } else if 'l' !in t {
      AbsentLetter(t, ANSWER, 0);
    } else {
      assert 'h' !in t;
      AbsentLetter(t, ANSWER, 3);
    }
  }

  /** A pattern holding a letter that `s` lacks does not occur in `s`. */
  lemma AbsentLetter(s: string, sub: string, j: nat)
    requires j < |sub| && sub[j] !in s
    ensures !Text.Contains(s, sub)
  {
    forall i ensures !Text.OccursAt(s, sub, i) {
      if 0 <= i && i + |sub| <= |s| {
        assert s[i..i + |sub|][j] == s[i + j];
      }
    }
  }

  // ---------------------------------------------------------------- button_pressed

  /**
   * The callback query of a press: its payload, who pressed, the chat of the
   * update, and the chat and id of the challenge message the keyboard hangs on.
   */
  datatype Query = Query(data: string, fromUserId: int, chatId: int, messageChatId: int, messageId: int)

  /** The exceptions `button_pressed` lets escape on a malformed payload. */
  datatype PressError = ValueError | IndexError

  /** What a press does: raise, or issue a list of platform calls. */
  datatype PressOutcome = Raised(error: PressError) | Handled(effects: seq<Action>)

  /** The three calls of a passed challenge, in order. */
  function PassEffects(q: Query, member: int, name: string): seq<Action>
  {
    [RestrictChatMember(q.chatId, member, UNMUTED),
     DeleteMessage(q.messageChatId, q.messageId),
     SendMessage(q.chatId, WelcomeMessage(name), None)]
  }

  /** The one call of a failed challenge. */
  function FailEffects(q: Query, name: string): seq<Action>
  {
    [EditMessageText(q.messageChatId, q.messageId, QuarantineNotice(name))]
  }

  /**
   * `button_pressed`: decode the member id (`ValueError` when field 0 is not
   * an integer) and the name (`IndexError` without a second field); a press
   * by anyone else does nothing; otherwise pass when `leche` occurs anywhere
   * in the payload, fail when it does not.
   */
  function Press(q: Query): (r: PressOutcome)
    ensures r.Raised? <==> Text.ParseInt(Text.Split(q.data, ',')[0]).None? || |Text.Split(q.data, ',')| < 2
    ensures r.Handled? ==> |r.effects| == 0 || |r.effects| == 1 || |r.effects| == 3
    ensures r.Handled? && r.effects != [] ==> Text.ParseInt(Text.Split(q.data, ',')[0]) == Some(q.fromUserId)
    ensures r.Handled? ==> forall a :: a in r.effects && a.RestrictChatMember? ==>
      a.userId == q.fromUserId && a.permissions == UNMUTED && Text.Contains(q.data, ANSWER)
  {
    var parts := Text.Split(q.data, ',');
    match Text.ParseInt(parts[0])
    case None => Raised(ValueError)
    case Some(entered) =>
      if |parts| < 2 then Raised(IndexError)
      else if q.fromUserId != entered then Handled([])
      else if Text.Contains(q.data, ANSWER) then Handled(PassEffects(q, entered, parts[1]))
      else Handled(FailEffects(q, parts[1]))
  }

  /** Pressing a button of someone else's challenge does nothing. */
  lemma PressByOther(m: Member, token: string, q: Query)
    requires q.data == Payload(m, token) && q.fromUserId != m.id
    ensures Press(q) == Handled([])
  {
    PayloadFields(m, token);
  }

  /**
   * The member pressing a button of their own challenge passes exactly when
   * the button is the glass of milk or the name holds `leche`; the messages
   * name the person by the name up to its first comma.
   */
  lemma PressOwnButton(m: Member, k: nat, q: Query)
    requires k < NUM_ITEMS
    requires q.data == KeyboardItems(m)[k].callbackData && q.fromUserId == m.id
    ensures var name := Text.Before(m.firstName, ',');
      Press(q) == Handled(
        if k == ANSWER_INDEX || Text.Contains(m.firstName, ANSWER) then PassEffects(q, m.id, name)
        else FailEffects(q, name))
  {
    PayloadFields(m, TOKENS[k]);
    PayloadHoldsAnswer(m, TOKENS[k]);
    TokensHoldingAnswer(k);
  }

  // ---------------------------------------------------------------- shuffle

  /**
   * The draws of `random.shuffle` on a list of `n` items: the step for index
   * `i` (from `n - 1` down to 1) swaps item `i` with item `choices[i] <= i`.
   */
  predicate ValidChoices(choices: seq<nat>, n: nat)
  {
    |choices| == n && forall i :: 0 <= i < n ==> choices[i] <= i
  }

  /** The list with the items at `i` and `j` exchanged. */
  function Swap<T>(s: seq<T>, i: nat, j: nat): (r: seq<T>)
    requires i < |s| && j < |s|
    ensures |r| == |s|
  {
    s[i := s[j]][j := s[i]]
  }

  /** Exchanging two items keeps the same items. */
  lemma SwapMultiset<T>(s: seq<T>, i: nat, j: nat)
    requires i < |s| && j < |s|
    ensures multiset(Swap(s, i, j)) == multiset(s)
  {
    var t := s[i := s[j]];
    assert multiset(t) == multiset(s) - multiset{s[i]} + multiset{s[j]};
    assert multiset(t[j := s[i]]) == multiset(t) - multiset{t[j]} + multiset{s[i]};
  }

  /** The list after the steps for `i`, `i - 1`, ..., `1` of the shuffle. */
  function ShuffleSteps<T>(s: seq<T>, choices: seq<nat>, i: nat): (r: seq<T>)
    requires ValidChoices(choices, |s|) && i < |s|
    ensures |r| == |s|
    decreases i
  {
    if i == 0 then s else ShuffleSteps(Swap(s, i, choices[i]), choices, i - 1)
  }

  /** `random.shuffle(s)` with the given draws. */
  function Shuffled<T>(s: seq<T>, choices: seq<nat>): (r: seq<T>)
    requires ValidChoices(choices, |s|)
    ensures |r| == |s|
  {
    if |s| == 0 then s else ShuffleSteps(s, choices, |s| - 1)
  }

  /** Each shuffle step keeps the same items. */
  lemma {:induction false} ShuffleStepsPermutes<T>(s: seq<T>, choices: seq<nat>, i: nat)
    requires ValidChoices(choices, |s|) && i < |s|
    ensures multiset(ShuffleSteps(s, choices, i)) == multiset(s)
    decreases i
  {
    if i > 0 {
      SwapMultiset(s, i, choices[i]);
      ShuffleStepsPermutes(Swap(s, i, choices[i]), choices, i - 1);
    }
  }

  /** Shuffling reorders the list without adding, losing or repeating an item. */
  lemma ShufflePermutes<T>(s: seq<T>, choices: seq<nat>)
    requires ValidChoices(choices, |s|)
    ensures multiset(Shuffled(s, choices)) == multiset(s)
  {
    if |s| > 0 {
      ShuffleStepsPermutes(s, choices, |s| - 1);
    }
  }

  /** `random.shuffle(items)`: swaps in place from the last index down to 1. */
  method Shuffle<T>(items: array<T>, choices: seq<nat>)
    requires ValidChoices(choices, items.Length)
    modifies items
    ensures items[..] == Shuffled(old(items[..]), choices)
  {
    if items.Length == 0 {
      return;
    }
    var i := items.Length - 1;
    while i > 0
      invariant 0 <= i < items.Length
      invariant ShuffleSteps(items[..], choices, i) == Shuffled(old(items[..]), choices)
      decreases i
    {
      var j := choices[i];
      ghost var before := items[..];
      ghost var after := Swap(before, i, j);
      assert ShuffleSteps(before, choices, i) == ShuffleSteps(after, choices, i - 1);
      items[i], items[j] := items[j], items[i];
      assert items[..] == after by {
        forall k | 0 <= k < items.Length ensures items[k] == after[k] {
        }
      }
      i := i - 1;
    }
  }

  /** A list without repeated items holds each of its items once. */
  lemma {:induction false} DistinctOnce<T>(s: seq<T>, x: T)
    requires forall j, k :: 0 <= j < k < |s| ==> s[j] != s[k]
    ensures multiset(s)[x] == if x in s then 1 else 0
    decreases |s|
  {
    if |s| > 0 {
      var tail := s[1..];
      assert s == [s[0]] + tail;
      DistinctOnce(tail, x);
      if x == s[0] {
        assert x !in tail;
      }
    }
  }

  // ---------------------------------------------------------------- get_keyboard_markup

  /** `NUM_FILAS`: rows of the challenge keyboard. */
  const NUM_ROWS: nat := 4

  /** `NUM_BOTONES`: buttons per row. */
  const NUM_BUTTONS: nat := 4

  /** The rows the nested loops build from a list of sixteen buttons, in row-major order. */
  function Grid(items: seq<Button>): (keyboard: Keyboard)
    requires |items| == NUM_ROWS * NUM_BUTTONS
  {
    seq(NUM_ROWS, i requires 0 <= i < NUM_ROWS => items[NUM_BUTTONS * i..NUM_BUTTONS * i + NUM_BUTTONS])
  }

  /** All the buttons of a keyboard, row after row. */
  function Cells(keyboard: Keyboard): seq<Button>
    decreases |keyboard|
  {
    if |keyboard| == 0 then [] else keyboard[0] + Cells(keyboard[1..])
  }

  /** The grid has four rows of four, row `i` column `n` holding item `4 * i + n`. */
  lemma GridShape(items: seq<Button>)
    requires |items| == NUM_ROWS * NUM_BUTTONS
    ensures var keyboard := Grid(items);
      |keyboard| == NUM_ROWS && (forall i :: 0 <= i < NUM_ROWS ==> |keyboard[i]| == NUM_BUTTONS) &&
      forall i, n :: 0 <= i < NUM_ROWS && 0 <= n < NUM_BUTTONS ==> keyboard[i][n] == items[NUM_BUTTONS * i + n]
  {
  }

  /** Reading the grid row after row gives back the list it was built from. */
  lemma GridCells(items: seq<Button>)
    requires |items| == NUM_ROWS * NUM_BUTTONS
    ensures Cells(Grid(items)) == items
  {
    var g := Grid(items);
    assert g[4..] == [];
    assert g[3..][1..] == g[4..] && g[3..][0] == g[3];
    assert Cells(g[3..]) == g[3];
    assert g[2..][1..] == g[3..] && g[2..][0] == g[2];
    assert Cells(g[2..]) == g[2] + g[3];
    assert g[1..][1..] == g[2..] && g[1..][0] == g[1];
    assert Cells(g[1..]) == g[1] + (g[2] + g[3]);
    assert Cells(g) == g[0] + (g[1] + (g[2] + g[3]));
    assert items == items[0..4] + (items[4..8] + (items[8..12] + items[12..16]));
  }

  /** The keyboard shown to member `m` when the shuffle draws `choices`. */
  function ChallengeKeyboard(m: Member, choices: seq<nat>): Keyboard
    requires ValidChoices(choices, NUM_ITEMS)
  {
    Grid(Shuffled(KeyboardItems(m), choices))
  }

  /**
   * `get_keyboard_markup(member)`: the sixteen buttons, shuffled in place, laid
   * out by two nested loops with a running counter.
   */
  method GetKeyboardMarkup(member: Member, choices: seq<nat>) returns (keyboard: Keyboard)
    requires ValidChoices(choices, NUM_ITEMS)
    ensures keyboard == ChallengeKeyboard(member, choices)
  {
    var itemsList := KeyboardItems(member);
    var items := new Button[NUM_ITEMS](k requires 0 <= k < NUM_ITEMS => itemsList[k]);
    assert items[..] == itemsList;
    Shuffle(items, choices);
    ghost var shuffled := items[..];
    keyboard := [];
    var counter := 0;
    for i := 0 to NUM_ROWS
      invariant items[..] == shuffled
      invariant |keyboard| == i && counter == NUM_BUTTONS * i
      invariant forall r :: 0 <= r < i ==> keyboard[r] == shuffled[NUM_BUTTONS * r..NUM_BUTTONS * r + NUM_BUTTONS]
    {
      var row := [];
      for n := 0 to NUM_BUTTONS
        invariant items[..] == shuffled
        invariant |row| == n && counter == NUM_BUTTONS * i + n
        invariant row == shuffled[NUM_BUTTONS * i..NUM_BUTTONS * i + n]
      {
        row := row + [items[counter]];
        counter := counter + 1;
      }
      keyboard := keyboard + [row];
    }
  }

  /**
   * The challenge keyboard: four rows of four, holding each of the member's
   * sixteen buttons exactly once, so exactly one cell is the glass of milk.
   */
  lemma ChallengeKeyboardHoldsEachButtonOnce(m: Member, choices: seq<nat>, b: Button)
    requires ValidChoices(choices, NUM_ITEMS)
    ensures var keyboard := ChallengeKeyboard(m, choices);
      |keyboard| == NUM_ROWS && (forall i :: 0 <= i < NUM_ROWS ==> |keyboard[i]| == NUM_BUTTONS) &&
      multiset(Cells(keyboard))[b] == if b in KeyboardItems(m) then 1 else 0
  {
    var items := KeyboardItems(m);
    var shuffled := Shuffled(items, choices);
    GridShape(shuffled);
    GridCells(shuffled);
    ItemsDistinct(m);
    DistinctOnce(items, b);
    ShufflePermutes(items, choices);
  }

  // ---------------------------------------------------------------- manage_new_member

  /** The draws of one shuffle per joining member. */
  predicate ValidShuffles(shuffles: seq<seq<nat>>, n: nat)
  {
    |shuffles| == n && forall k :: 0 <= k < n ==> ValidChoices(shuffles[k], NUM_ITEMS)
  }

  /**
   * What one entry of `new_chat_members` causes: nothing for the bot itself;
   * for anyone else, the four send rights removed, then the challenge.
   */
  function MemberEffects(botId: int, chatId: int, m: Member, choices: seq<nat>): seq<Action>
    requires ValidChoices(choices, NUM_ITEMS)
  {
    if botId == m.id then []
    else [RestrictChatMember(chatId, m.id, MUTED),
          SendMessage(chatId, TestMessage(m.firstName), Some(ChallengeKeyboard(m, choices)))]
  }

  /** The effects of each joining member, one list per member. */
  function PerMember(botId: int, chatId: int, members: seq<Member>, shuffles: seq<seq<nat>>): (lists: seq<seq<Action>>)
    requires ValidShuffles(shuffles, |members|)
    ensures |lists| == |members|
  {
    seq(|members|, k requires 0 <= k < |members| => MemberEffects(botId, chatId, members[k], shuffles[k]))
  }

  /** The lists one after the other. */
  function Flatten<T>(lists: seq<seq<T>>): seq<T>
    decreases |lists|
  {
    if |lists| == 0 then [] else Flatten(lists[..|lists| - 1]) + lists[|lists| - 1]
  }

  /** Flattening distributes over concatenation. */
  lemma {:induction false} FlattenConcat<T>(x: seq<seq<T>>, y: seq<seq<T>>)
    ensures Flatten(x + y) == Flatten(x) + Flatten(y)
    decreases |y|
  {
    if |y| == 0 {
      assert x + y == x;
    } else {
      var n := |y| - 1;
      FlattenConcat(x, y[..n]);
      assert (x + y)[..|x + y| - 1] == x + y[..n];
      assert (x + y)[|x + y| - 1] == y[n];
    }
  }

  /** An item of the flattened lists comes from one of the lists. */
  lemma {:induction false} FlattenFrom<T>(lists: seq<seq<T>>, a: T)
    requires a in Flatten(lists)
    ensures exists k :: 0 <= k < |lists| && a in lists[k]
    decreases |lists|
  {
    var n := |lists| - 1;
    if a !in lists[n] {
      FlattenFrom(lists[..n], a);
      var k :| 0 <= k < n && a in lists[..n][k];
      assert lists[..n][k] == lists[k];
    }
  }

  /** What `manage_new_member` causes for a list of joining members, in list order. */
  function JoinEffects(botId: int, chatId: int, members: seq<Member>, shuffles: seq<seq<nat>>): seq<Action>
    requires ValidShuffles(shuffles, |members|)
  {
    Flatten(PerMember(botId, chatId, members, shuffles))
  }

  lemma ValidShufflesConcat(sa: seq<seq<nat>>, na: nat, sb: seq<seq<nat>>, nb: nat)
    requires ValidShuffles(sa, na) && ValidShuffles(sb, nb)
    ensures ValidShuffles(sa + sb, na + nb)
  {
    forall k | 0 <= k < na + nb ensures ValidChoices((sa + sb)[k], NUM_ITEMS) {
      if k < na { assert (sa + sb)[k] == sa[k]; } else { assert (sa + sb)[k] == sb[k - na]; }
    }
  }

  /** Members joining together are handled one after the other, in list order. */
  lemma JoinEffectsConcat(botId: int, chatId: int, a: seq<Member>, sa: seq<seq<nat>>, b: seq<Member>, sb: seq<seq<nat>>)
    requires ValidShuffles(sa, |a|) && ValidShuffles(sb, |b|)
    ensures ValidShuffles(sa + sb, |a + b|)
    ensures JoinEffects(botId, chatId, a + b, sa + sb) == JoinEffects(botId, chatId, a, sa) + JoinEffects(botId, chatId, b, sb)
  {
    ValidShufflesConcat(sa, |a|, sb, |b|);
    var pa, pb := PerMember(botId, chatId, a, sa), PerMember(botId, chatId, b, sb);
    var pab := PerMember(botId, chatId, a + b, sa + sb);
    forall k | 0 <= k < |a + b| ensures pab[k] == (pa + pb)[k] {
      if k < |a| {
        assert (a + b)[k] == a[k] && (sa + sb)[k] == sa[k];
      } else {
        assert (a + b)[k] == b[k - |a|] && (sa + sb)[k] == sb[k - |a|];
      }
    }
    assert pab == pa + pb;
    FlattenConcat(pa, pb);
  }

  /** A single joining member other than the bot is muted, then challenged. */
  lemma JoinOne(botId: int, chatId: int, m: Member, choices: seq<nat>)
    requires ValidChoices(choices, NUM_ITEMS)
    ensures JoinEffects(botId, chatId, [m], [choices]) ==
      if m.id == botId then []
      else [RestrictChatMember(chatId, m.id, MUTED),
            SendMessage(chatId, TestMessage(m.firstName), Some(ChallengeKeyboard(m, choices)))]
  {
    var lists := PerMember(botId, chatId, [m], [choices]);
    assert lists == [MemberEffects(botId, chatId, m, choices)];
    assert lists[..0] == [];
    assert Flatten(lists) == Flatten(lists[..0]) + lists[0];
  }

  /** The effects of the first `k + 1` members extend those of the first `k` by member `k`'s. */
  lemma JoinEffectsStep(botId: int, chatId: int, members: seq<Member>, shuffles: seq<seq<nat>>, k: nat)
    requires ValidShuffles(shuffles, |members|) && k < |members|
    ensures ValidShuffles(shuffles[..k], k) && ValidShuffles(shuffles[..k + 1], k + 1)
    ensures JoinEffects(botId, chatId, members[..k + 1], shuffles[..k + 1]) ==
      JoinEffects(botId, chatId, members[..k], shuffles[..k]) + MemberEffects(botId, chatId, members[k], shuffles[k])
  {
    assert forall j :: 0 <= j < k + 1 ==> shuffles[..k + 1][j] == shuffles[j];
    var lists := PerMember(botId, chatId, members[..k + 1], shuffles[..k + 1]);
    assert lists[..k] == PerMember(botId, chatId, members[..k], shuffles[..k]);
    assert lists[k] == MemberEffects(botId, chatId, members[k], shuffles[k]);
  }

  /** Lists of zero or two items flatten to an even number of items, at most two per list. */
  lemma {:induction false} FlattenPairs<T>(lists: seq<seq<T>>)
    requires forall k :: 0 <= k < |lists| ==> |lists[k]| == 0 || |lists[k]| == 2
    ensures |Flatten(lists)| % 2 == 0 && |Flatten(lists)| <= 2 * |lists|
    decreases |lists|
  {
    if |lists| > 0 {
      var n := |lists| - 1;
      assert forall k :: 0 <= k < n ==> lists[..n][k] == lists[k];
      FlattenPairs(lists[..n]);
    }
  }

  /**
   * Joining never touches the bot itself, takes all rights from every member it
   * restricts, and addresses every challenge to the chat with a 4x4 keyboard.
   */
  lemma JoinEffectsShape(botId: int, chatId: int, members: seq<Member>, shuffles: seq<seq<nat>>)
    requires ValidShuffles(shuffles, |members|)
    ensures var effects := JoinEffects(botId, chatId, members, shuffles);
      |effects| % 2 == 0 && |effects| <= 2 * |members| &&
      forall a :: a in effects ==>
        (a.RestrictChatMember? && a.chatId == chatId && a.userId != botId && a.permissions == MUTED) ||
        (a.SendMessage? && a.chatId == chatId && a.markup.Some? && |a.markup.value| == NUM_ROWS)
  {
    var lists := PerMember(botId, chatId, members, shuffles);
    FlattenPairs(lists);
    forall a: Action | a in Flatten(lists)
      ensures (a.RestrictChatMember? && a.chatId == chatId && a.userId != botId && a.permissions == MUTED) ||
        (a.SendMessage? && a.chatId == chatId && a.markup.Some? && |a.markup.value| == NUM_ROWS)
    {
      FlattenFrom(lists, a);
      var k :| 0 <= k < |lists| && a in lists[k];
      var m := members[k];
      if m.id != botId {
        GridShape(Shuffled(KeyboardItems(m), shuffles[k]));
      }
    }
  }

  // ---------------------------------------------------------------- the bot and its handlers

  /** The bot as the handlers use it: its own id and the calls it has made. */
  class ChatBot {
    const id: int
    var trace: seq<Action>

    constructor (id: int)
      ensures this.id == id && trace == []
    {
      this.id := id;
      trace := [];
    }

    /** `restrict_chat_member(chat_id, user_id, permissions)`. */
    method RestrictMember(chatId: int, userId: int, permissions: Permissions)
      modifies this
      ensures trace == old(trace) + [RestrictChatMember(chatId, userId, permissions)]
    {
      trace := trace + [RestrictChatMember(chatId, userId, permissions)];
    }

    /** `send_message(chat_id, text, reply_markup=markup)`. */
    method Send(chatId: int, text: string, markup: Option<Keyboard>)
      modifies this
      ensures trace == old(trace) + [SendMessage(chatId, text, markup)]
    {
      trace := trace + [SendMessage(chatId, text, markup)];
    }

    /** `delete_message(chat_id=..., message_id=...)`. */
    method Delete(chatId: int, messageId: int)
      modifies this
      ensures trace == old(trace) + [DeleteMessage(chatId, messageId)]
    {
      trace := trace + [DeleteMessage(chatId, messageId)];
    }

    /** `edit_message_text(text=...)` on a message. */
    method Edit(chatId: int, messageId: int, text: string)
      modifies this
      ensures trace == old(trace) + [EditMessageText(chatId, messageId, text)]
    {
      trace := trace + [EditMessageText(chatId, messageId, text)];
    }

    /**
     * `manage_new_member`: for each joining member other than the bot, remove
     * the send rights and post the challenge with a freshly shuffled keyboard.
     */
    method ManageNewMember(chatId: int, members: seq<Member>, shuffles: seq<seq<nat>>)
      requires ValidShuffles(shuffles, |members|)
      modifies this
      ensures trace == old(trace) + JoinEffects(id, chatId, members, shuffles)
    {
      for k := 0 to |members|
        invariant trace == old(trace) + JoinEffects(id, chatId, members[..k], shuffles[..k])
      {
        var member := members[k];
        if id != member.id {
          RestrictMember(chatId, member.id, MUTED);
          var markup := GetKeyboardMarkup(member, shuffles[k]);
          Send(chatId, TestMessage(member.firstName), Some(markup));
        }
        JoinEffectsStep(id, chatId, members, shuffles, k);
      }
      assert members[..|members|] == members;
      assert shuffles[..|shuffles|] == shuffles;
    }

    /**
     * `button_pressed`: returns the exception the press raises, if any, and
     * otherwise makes the calls `Press` describes.
     */
    method ButtonPressed(q: Query) returns (error: Option<PressError>)
      modifies this
      ensures Press(q).Raised? ==> error == Some(Press(q).error) && trace == old(trace)
      ensures Press(q).Handled? ==> error == None && trace == old(trace) + Press(q).effects
    {
      var parts := Text.Split(q.data, ',');
      var entered := Text.ParseInt(parts[0]);
      if entered.None? {
        return Some(ValueError);
      }
      if |parts| < 2 {
        return Some(IndexError);
      }
      var name := parts[1];
      if q.fromUserId == entered.value {
        if Text.Contains(q.data, ANSWER) {
          RestrictMember(q.chatId, entered.value, UNMUTED);
          Delete(q.messageChatId, q.messageId);
          Send(q.chatId, WelcomeMessage(name), None);
        } else {
          Edit(q.messageChatId, q.messageId, QuarantineNotice(name));
        }
      }
      return None;
    }
  }
}
