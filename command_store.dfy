/**
 * The command store: one document holding the default response, the
 * commands and the quick replies, edited in place. Writes are validated:
 * a blank command text or keyword is a bad request (400), a command text
 * that another command already has, ignoring case, is a conflict (409),
 * and an unknown id is not found (404).
 *
 * The document on disk becomes the fields of a `Store` object; reading
 * and writing the file are left out. `randomUUID` is the counter
 * `issued`: the n-th identifier drawn is `Uuid(n)`.
 */
module CommandStore {
  import opened Common
  import opened Strings
  import opened Entities

  datatype StoreError =
    | BadRequest  // 400
    | Conflict    // 409
    | NotFound    // 404

  // ---------------------------------------------------------------------
  // Command text
  // ---------------------------------------------------------------------

  /** A stored command text: non-empty, starting with `/`, no whitespace at either end. */
  predicate ValidCommandText(t: string)
  {
    t != "" && t[0] == '/' && Trimmed(t)
  }

  /**
   * `normaliseCommand`: blank input gives `""`; otherwise the trimmed text,
   * with `/` put in front when it is missing. Letter case is kept.
   */
  function NormaliseCommand(command: string): (r: string)
    ensures r == "" <==> AllSpace(command)
    ensures r != "" ==> ValidCommandText(r)
    ensures r != "" && StartsWith(Trim(command), "/") ==> r == Trim(command)
    ensures r != "" && !StartsWith(Trim(command), "/") ==> r == "/" + Trim(command)
  {
    var trimmed := Trim(command);
    TrimEmptyIff(command);
    TrimIsTrimmed(command);
    if trimmed == "" then ""
    else if StartsWith(trimmed, "/") then trimmed
    else "/" + trimmed
  }

  /** A valid command text is its own normal form, so normalising twice changes nothing. */
  lemma NormaliseCommandFixesValid(t: string)
    requires ValidCommandText(t)
    ensures NormaliseCommand(t) == t
  {
    TrimOfTrimmed(t);
  }

  lemma NormaliseCommandIdempotent(command: string)
    ensures NormaliseCommand(NormaliseCommand(command)) == NormaliseCommand(command)
  {
    if NormaliseCommand(command) != "" {
      NormaliseCommandFixesValid(NormaliseCommand(command));
    }
  }

  /**
   * The store invariant on command texts: every text is valid, and no two
   * texts are equal ignoring case.
   */
  predicate ValidCommandTexts(cmds: seq<Command>)
  {
    && (forall i :: 0 <= i < |cmds| ==> ValidCommandText(cmds[i].command))
    && (forall i, j :: 0 <= i < j < |cmds| ==> Lower(cmds[i].command) != Lower(cmds[j].command))
  }

  /** Some command other than the one at `except` has `text`, ignoring case. */
  predicate TextTaken(cmds: seq<Command>, text: string, except: int)
  {
    exists i :: 0 <= i < |cmds| && i != except && Lower(cmds[i].command) == Lower(text)
  }

  // ---------------------------------------------------------------------
  // Buttons
  // ---------------------------------------------------------------------

  /** A payload button is kept only when it is present and has a label. */
  predicate Labelled(b: Option<Button>)
  {
    b.Some? && b.value.labelText != ""
  }

  /** The labelled buttons of a payload, in payload order. */
  function LabelledOnly(bs: seq<Option<Button>>): seq<Button>
  {
    if bs == [] then []
    else (if Labelled(bs[0]) then [bs[0].value] else []) + LabelledOnly(bs[1..])
  }

  /** The filter works piecewise, so the kept buttons stay in payload order. */
  lemma {:induction false} LabelledOnlyAppend(a: seq<Option<Button>>, b: seq<Option<Button>>)
    ensures LabelledOnly(a + b) == LabelledOnly(a) + LabelledOnly(b)
    decreases |a|
  {
    if a == [] {
      assert a + b == b;
    } else {
      assert (a + b)[0] == a[0];
      assert (a + b)[1..] == a[1..] + b;
      LabelledOnlyAppend(a[1..], b);
    }
  }

  lemma {:induction false} LabelledOnlyMembers(bs: seq<Option<Button>>, b: Button)
    ensures b in LabelledOnly(bs) <==> Some(b) in bs && b.labelText != ""
    decreases |bs|
  {
    if bs != [] {
      LabelledOnlyMembers(bs[1..], b);
      assert bs == [bs[0]] + bs[1..];
    }
  }

  /**
   * The stored form of a labelled button with the id it ends up with:
   * label trimmed, type defaulting to `command`, value trimmed, or absent
   * when it was absent or empty.
   */
  function CleanButton(b: Button, id: string): Button
  {
    Button(id, Trim(b.labelText), if b.kind != "" then b.kind else "command",
           if Truthy(b.value) then Some(Trim(b.value.value)) else None)
  }

  /** Sanitised buttons, and the identifier counter after the draws they needed. */
  datatype Sanitised = Sanitised(buttons: seq<Button>, next: nat)

  /**
   * `sanitiseButtons`: the labelled buttons, in order, each cleaned; a
   * button with an id keeps it, one without draws the next identifier.
   */
  function SanitiseButtons(bs: seq<Option<Button>>, next: nat): (r: Sanitised)
    ensures next <= r.next
    ensures |r.buttons| == |LabelledOnly(bs)|
    ensures forall k :: 0 <= k < |r.buttons| ==>
      && r.buttons[k] == CleanButton(LabelledOnly(bs)[k], r.buttons[k].id)
      && r.buttons[k].id != ""
      && (LabelledOnly(bs)[k].id != "" ==> r.buttons[k].id == LabelledOnly(bs)[k].id)
    decreases |bs|
  {
    if bs == [] then Sanitised([], next)
    else if !Labelled(bs[0]) then
      assert LabelledOnly(bs) == LabelledOnly(bs[1..]);
      SanitiseButtons(bs[1..], next)
    else
      var b := bs[0].value;
      var rest := SanitiseButtons(bs[1..], if b.id != "" then next else next + 1);
      assert LabelledOnly(bs) == [b] + LabelledOnly(bs[1..]);
      Sanitised([CleanButton(b, if b.id != "" then b.id else Uuid(next))] + rest.buttons, rest.next)
  }

  /** The identifiers drawn while sanitising: each button without an id got one of `next` .. `r.next - 1`. */
  predicate DrawnBetween(bs: seq<Option<Button>>, r: Sanitised, next: nat)
    requires |r.buttons| == |LabelledOnly(bs)|
  {
    forall k :: 0 <= k < |r.buttons| && LabelledOnly(bs)[k].id == "" ==>
      exists m :: next <= m < r.next && r.buttons[k].id == Uuid(m)
  }

  /**
   * A button without an id gets one drawn during this call, that is, one
   * of the draws `next` .. `r.next - 1`, which no earlier draw repeats.
   */
  lemma {:induction false} SanitiseDrawsFreshIds(bs: seq<Option<Button>>, next: nat)
    ensures DrawnBetween(bs, SanitiseButtons(bs, next), next)
    decreases |bs|
  {
    if bs != [] {
      if !Labelled(bs[0]) {
        assert LabelledOnly(bs) == LabelledOnly(bs[1..]);
        SanitiseDrawsFreshIds(bs[1..], next);
      } else {
        var b := bs[0].value;
        var afterId := if b.id != "" then next else next + 1;
        SanitiseDrawsFreshIds(bs[1..], afterId);
        DrawnCons(bs, next);
      }
    }
  }

  lemma DrawnCons(bs: seq<Option<Button>>, next: nat)
    requires bs != [] && Labelled(bs[0])
    requires DrawnBetween(bs[1..], SanitiseButtons(bs[1..], if bs[0].value.id != "" then next else next + 1),
                          if bs[0].value.id != "" then next else next + 1)
    ensures DrawnBetween(bs, SanitiseButtons(bs, next), next)
  {
    var b := bs[0].value;
    var afterId := if b.id != "" then next else next + 1;
    var rest := SanitiseButtons(bs[1..], afterId);
    var r := SanitiseButtons(bs, next);
    assert LabelledOnly(bs) == [b] + LabelledOnly(bs[1..]);
    assert r.buttons == [CleanButton(b, if b.id != "" then b.id else Uuid(next))] + rest.buttons;
    forall k | 0 <= k < |r.buttons| && LabelledOnly(bs)[k].id == ""
      ensures exists m :: next <= m < r.next && r.buttons[k].id == Uuid(m)
    {
      if k > 0 {
        assert r.buttons[k] == rest.buttons[k - 1];
        assert LabelledOnly(bs)[k] == LabelledOnly(bs[1..])[k - 1];
        var m :| afterId <= m < rest.next && rest.buttons[k - 1].id == Uuid(m);
        assert next <= m < r.next && r.buttons[k].id == Uuid(m);
      } else {
        assert r.buttons[0].id == Uuid(next) && next < r.next;
      }
    }
  }

  /** A button already in stored form: an id, a trimmed label, a type, and no empty value. */
  predicate Clean(b: Button)
  {
    && b.id != "" && b.labelText != "" && Trimmed(b.labelText) && b.kind != ""
    && (b.value.Some? ==> b.value.value != "" && Trimmed(b.value.value))
  }

  /** Sanitising buttons that are already clean changes nothing and draws no identifier. */
  lemma {:induction false} SanitiseKeepsClean(bs: seq<Button>, next: nat)
    requires forall k :: 0 <= k < |bs| ==> Clean(bs[k])
    ensures SanitiseButtons(seq(|bs|, k requires 0 <= k < |bs| => Some(bs[k])), next) == Sanitised(bs, next)
    decreases |bs|
  {
    var wrapped := seq(|bs|, k requires 0 <= k < |bs| => Some(bs[k]));
    if bs != [] {
      var b := bs[0];
      TrimOfTrimmed(b.labelText);
      if b.value.Some? {
        TrimOfTrimmed(b.value.value);
      }
      assert CleanButton(b, b.id) == b;
      assert wrapped[1..] == seq(|bs[1..]|, k requires 0 <= k < |bs[1..]| => Some(bs[1..][k]));
      SanitiseKeepsClean(bs[1..], next);
      assert bs == [b] + bs[1..];
    }
  }

  // ---------------------------------------------------------------------
  // The seeded document
  // ---------------------------------------------------------------------

  /** The document: the default response, the commands and the quick replies. */
  datatype Document = Document(defaultResponse: string, commands: seq<Command>, quickReplies: seq<QuickReply>)

  // The seeded texts (Thai, as shipped).
  const SeedDefaultResponse: string := "ขอบคุณที่ติดต่อ Topito BN9! ทีมงานจะรีบตอบกลับให้เร็วที่สุด ✨"
  const SeedStartDescription: string := "คำแนะนำการใช้งานเบื้องต้น"
  const SeedStartResponse: string :=
    "สวัสดีค่ะ!\n\nนี่คือ Topito BN9 Assistant พร้อมช่วยตอบคำถามและพาคุณไปยัง Mini App ต่าง ๆ ได้ทันที 🙂"
  const SeedHelpDescription: string := "รายการหัวข้อที่สามารถสอบถามได้"
  const SeedHelpResponse: string :=
    "คุณสามารถถามคำถามเกี่ยวกับการสั่งซื้อ การจัดส่ง หรือพูดคุยกับเจ้าหน้าที่ได้เลยค่ะ 🛎️"
  const SeedHoursTitle: string := "เวลาทำการ"
  const SeedHoursKeyword: string := "เวลา"
  const SeedHoursResponse: string := "ทีมงานพร้อมให้บริการทุกวัน 09:00 - 18:00 น. ค่ะ"
  const SeedShippingTitle: string := "สถานะจัดส่ง"
  const SeedShippingKeyword: string := "ส่งของ"
  const SeedShippingResponse: string := "อยากตรวจสอบสถานะจัดส่งพิมพ์ /track และกรอกหมายเลขคำสั่งซื้อได้เลยนะคะ"

  /**
   * `createDefaultData`: the document a fresh store starts from. Its eight
   * identifiers are the draws `next` .. `next + 7`, in the order the
   * literal evaluates them.
   */
  function CreateDefaultData(next: nat): Document
  {
    Document(
      SeedDefaultResponse,
      [ Command(Uuid(next), "/start", SeedStartDescription, SeedStartResponse,
                [ Button(Uuid(next + 1), "ถามคำถาม", "command", Some("/help")),
                  Button(Uuid(next + 2), "เปิด Mini App", "web_app", None) ]),
        Command(Uuid(next + 3), "/help", SeedHelpDescription, SeedHelpResponse,
                [ Button(Uuid(next + 4), "เช็คคำสั่งซื้อ", "command", Some("/track")),
                  Button(Uuid(next + 5), "ติดต่อทีมงาน", "command", Some("/support")) ]) ],
      [ QuickReply(Uuid(next + 6), SeedHoursTitle, SeedHoursKeyword, SeedHoursResponse),
        QuickReply(Uuid(next + 7), SeedShippingTitle, SeedShippingKeyword, SeedShippingResponse) ])
  }

  /** The seeded commands are `/start` and `/help`, whose texts satisfy the store invariant. */
  lemma DefaultTextsValid(next: nat)
    ensures var cmds := CreateDefaultData(next).commands;
      && |cmds| == 2 && cmds[0].command == "/start" && cmds[1].command == "/help"
      && ValidCommandTexts(cmds)
  {
    var cmds := CreateDefaultData(next).commands;
    assert ValidCommandText("/start") && ValidCommandText("/help");
    assert Lower("/start")[1] == 's' && Lower("/help")[1] == 'h';
    PairValid(cmds);
  }

  /** Two valid texts that differ ignoring case satisfy the invariant. */
  lemma PairValid(cmds: seq<Command>)
    requires |cmds| == 2 && ValidCommandText(cmds[0].command) && ValidCommandText(cmds[1].command)
    requires Lower(cmds[0].command) != Lower(cmds[1].command)
    ensures ValidCommandTexts(cmds)
  {
  }

  /** The seeded ids are distinct and all among the first `next + 8` draws. */
  lemma DefaultIdsValid(next: nat)
    ensures var d := CreateDefaultData(next);
      && DistinctCommandIds(d.commands) && DistinctReplyIds(d.quickReplies)
      && (forall i :: 0 <= i < |d.commands| ==> d.commands[i].id in IssuedIds(next + 8))
      && (forall i :: 0 <= i < |d.quickReplies| ==> d.quickReplies[i].id in IssuedIds(next + 8))
  {
    UuidInjective(next, next + 3);
    UuidInjective(next + 6, next + 7);
    assert Uuid(next) in IssuedIds(next + 8);
    assert Uuid(next + 3) in IssuedIds(next + 8);
    assert Uuid(next + 6) in IssuedIds(next + 8);
    assert Uuid(next + 7) in IssuedIds(next + 8);
  }

  // ---------------------------------------------------------------------
  // Lookups and the invariant
  // ---------------------------------------------------------------------

  predicate DistinctCommandIds(cmds: seq<Command>)
  {
    forall i, j :: 0 <= i < j < |cmds| ==> cmds[i].id != cmds[j].id
  }

  predicate DistinctReplyIds(qrs: seq<QuickReply>)
  {
    forall i, j :: 0 <= i < j < |qrs| ==> qrs[i].id != qrs[j].id
  }

  function CommandIdIs(id: string): Command -> bool
  {
    (c: Command) => c.id == id
  }

  function ReplyIdIs(id: string): QuickReply -> bool
  {
    (q: QuickReply) => q.id == id
  }

  /** `splice(i, 1)`: the element at `i` removed, the others in their order. */
  function RemoveAt<T>(s: seq<T>, i: nat): (r: seq<T>)
    requires i < |s|
    ensures |r| == |s| - 1
    ensures forall k :: 0 <= k < i ==> r[k] == s[k]
    ensures forall k :: i <= k < |r| ==> r[k] == s[k + 1]
  {
    s[..i] + s[i + 1..]
  }

  /** Removing one element keeps every other element and no copy of the removed one's id. */
  lemma RemovedIdIsGone(cmds: seq<Command>, id: string)
    requires DistinctCommandIds(cmds)
    requires FindFirst(cmds, CommandIdIs(id)).Some?
    ensures var r := RemoveAt(cmds, FindFirst(cmds, CommandIdIs(id)).value);
      && (forall c :: c in r ==> c.id != id)
      && (forall c :: c in cmds && c.id != id ==> c in r)
  {
    var i := FindFirst(cmds, CommandIdIs(id)).value;
    var r := RemoveAt(cmds, i);
    forall c | c in r ensures c.id != id {
      var k :| 0 <= k < |r| && r[k] == c;
      if k >= i { assert c == cmds[k + 1]; }
    }
    forall c | c in cmds && c.id != id ensures c in r {
      var k :| 0 <= k < |cmds| && cmds[k] == c;
      if k < i { assert r[k] == c; } else { assert k > i && r[k - 1] == c; }
    }
  }

  lemma RemovedReplyIsGone(qrs: seq<QuickReply>, id: string)
    requires DistinctReplyIds(qrs)
    requires FindFirst(qrs, ReplyIdIs(id)).Some?
    ensures var r := RemoveAt(qrs, FindFirst(qrs, ReplyIdIs(id)).value);
      && (forall q :: q in r ==> q.id != id)
      && (forall q :: q in qrs && q.id != id ==> q in r)
  {
    var i := FindFirst(qrs, ReplyIdIs(id)).value;
    var r := RemoveAt(qrs, i);
    forall q | q in r ensures q.id != id {
      var k :| 0 <= k < |r| && r[k] == q;
      if k >= i { assert q == qrs[k + 1]; }
    }
    forall q | q in qrs && q.id != id ensures q in r {
      var k :| 0 <= k < |qrs| && qrs[k] == q;
      if k < i { assert r[k] == q; } else { assert k > i && r[k - 1] == q; }
    }
  }

  /** Appending a valid text that no command has yet keeps the texts valid and distinct. */
  lemma AppendKeepsValidTexts(cmds: seq<Command>, c: Command)
    requires ValidCommandTexts(cmds)
    requires ValidCommandText(c.command) && !TextTaken(cmds, c.command, -1)
    ensures ValidCommandTexts(cmds + [c])
  {
  }

  /** Replacing the command at `i` by one whose text no other command has keeps the texts valid and distinct. */
  lemma ReplaceKeepsValidTexts(cmds: seq<Command>, i: nat, c: Command)
    requires ValidCommandTexts(cmds) && i < |cmds|
    requires ValidCommandText(c.command) && !TextTaken(cmds, c.command, i)
    ensures ValidCommandTexts(cmds[i := c])
  {
  }

  lemma RemoveKeepsValidTexts(cmds: seq<Command>, i: nat)
    requires ValidCommandTexts(cmds) && i < |cmds|
    ensures ValidCommandTexts(RemoveAt(cmds, i))
  {
    var r := RemoveAt(cmds, i);
    forall a, b | 0 <= a < b < |r| ensures Lower(r[a].command) != Lower(r[b].command) {
      var a' := if a < i then a else a + 1;
      var b' := if b < i then b else b + 1;
      assert r[a] == cmds[a'] && r[b] == cmds[b'];
    }
  }

  /** Under the invariant a command's own text is never taken by another command. */
  lemma OwnTextNotTaken(cmds: seq<Command>, i: nat)
    requires ValidCommandTexts(cmds) && i < |cmds|
    ensures !TextTaken(cmds, cmds[i].command, i)
  {
  }

  // ---------------------------------------------------------------------
  // Payloads and the records built from them
  // ---------------------------------------------------------------------

  /** A command as a client sends it; `None` is a field left out. */
  datatype CommandPayload = CommandPayload(
    command: Option<string>,
    description: Option<string>,
    response: Option<string>,
    buttons: Option<seq<Option<Button>>>)

  datatype QuickReplyPayload = QuickReplyPayload(title: Option<string>, keyword: Option<string>, response: Option<string>)

  /** The text `addCommand` would store for a payload (`""`: refused as blank). */
  function NewCommandText(payload: CommandPayload): string
  {
    NormaliseCommand(OrElse(payload.command, ""))
  }

  /** The command `addCommand` appends: fresh id first, then ids for the buttons that lack one. */
  function NewCommand(payload: CommandPayload, next: nat): (c: Command)
    ensures c.id == Uuid(next)
    ensures c.command == NewCommandText(payload)
    ensures NewCommandText(payload) != "" ==> ValidCommandText(c.command)
    ensures Trimmed(c.description) && Trimmed(c.response)
    ensures c.description == Trim(OrElse(payload.description, "")) && c.response == Trim(OrElse(payload.response, ""))
    ensures c.buttons == SanitiseButtons(if payload.buttons.Some? then payload.buttons.value else [], next + 1).buttons
  {
    TrimIsTrimmed(OrElse(payload.description, ""));
    TrimIsTrimmed(OrElse(payload.response, ""));
    Command(Uuid(next), NewCommandText(payload),
            Trim(OrElse(payload.description, "")), Trim(OrElse(payload.response, "")),
            SanitiseButtons(if payload.buttons.Some? then payload.buttons.value else [], next + 1).buttons)
  }

  /** The identifier counter after `addCommand` succeeded. */
  function DrawsAfterNewCommand(payload: CommandPayload, next: nat): (n: nat)
    ensures n > next
  {
    SanitiseButtons(if payload.buttons.Some? then payload.buttons.value else [], next + 1).next
  }

  /** The text `updateCommand` checks and stores: the payload's, normalised, if it sent one. */
  function EditedText(current: Command, payload: CommandPayload): string
  {
    if Truthy(payload.command) then NormaliseCommand(payload.command.value) else current.command
  }

  /** The command `updateCommand` stores in place of `current`. */
  function EditedCommand(current: Command, payload: CommandPayload, next: nat): Command
  {
    var text := EditedText(current, payload);
    Command(
      current.id,
      if text != "" then text else current.command,
      if payload.description.Some? then Trim(payload.description.value) else current.description,
      if payload.response.Some? then Trim(payload.response.value) else current.response,
      if payload.buttons.Some? then SanitiseButtons(payload.buttons.value, next).buttons else current.buttons)
  }

  function DrawsAfterEdit(payload: CommandPayload, next: nat): (n: nat)
    ensures n >= next
  {
    if payload.buttons.Some? then SanitiseButtons(payload.buttons.value, next).next else next
  }

  /**
   * An edit keeps the id; a field the payload leaves out keeps its value
   * and a field it sends is stored trimmed; the buttons change only when
   * buttons are sent, to their sanitised form; a missing or blank command
   * text keeps the old text, any other is stored normalised.
   */
  lemma EditKeepsWhatIsNotSent(current: Command, payload: CommandPayload, next: nat)
    ensures var e := EditedCommand(current, payload, next);
      && e.id == current.id
      && (payload.description.None? ==> e.description == current.description)
      && (payload.response.None? ==> e.response == current.response)
      && (payload.buttons.None? ==> e.buttons == current.buttons && DrawsAfterEdit(payload, next) == next)
      && (payload.command.None? || AllSpace(payload.command.value) ==> e.command == current.command)
      && (payload.description.Some? ==> e.description == Trim(payload.description.value))
      && (payload.response.Some? ==> e.response == Trim(payload.response.value))
      && (payload.buttons.Some? ==>
            && e.buttons == SanitiseButtons(payload.buttons.value, next).buttons
            && DrawsAfterEdit(payload, next) == SanitiseButtons(payload.buttons.value, next).next)
      && (Truthy(payload.command) && !AllSpace(payload.command.value) ==>
            e.command == NormaliseCommand(payload.command.value))
  {
  }

  /** An edit of a command with a valid text leaves a valid text, the one it was checked against. */
  lemma EditedTextValid(current: Command, payload: CommandPayload, next: nat)
    requires ValidCommandText(current.command)
    ensures var e := EditedCommand(current, payload, next);
      && ValidCommandText(e.command)
      && (EditedText(current, payload) != "" ==> e.command == EditedText(current, payload))
  {
  }

  /** The quick reply `addQuickReply` appends: the title falls back to the keyword. */
  function NewQuickReply(payload: QuickReplyPayload, next: nat): QuickReply
  {
    var keyword := Trim(OrElse(payload.keyword, ""));
    var title := Trim(OrElse(payload.title, ""));
    QuickReply(Uuid(next), if title != "" then title else keyword, keyword, Trim(OrElse(payload.response, "")))
  }

  /**
   * An added quick reply has the next identifier, the trimmed keyword, the
   * trimmed title or else the keyword, and the trimmed response or else
   * `""`; keyword and title are non-blank whenever the keyword was not blank.
   */
  lemma NewQuickReplyShape(payload: QuickReplyPayload, next: nat)
    requires !AllSpace(OrElse(payload.keyword, ""))
    ensures var q := NewQuickReply(payload, next);
      && q.id == Uuid(next)
      && q.keyword == Trim(OrElse(payload.keyword, ""))
      && q.keyword != "" && Trimmed(q.keyword) && q.title != "" && Trimmed(q.title)
      && (!Truthy(payload.title) || AllSpace(payload.title.value) ==> q.title == q.keyword)
      && (Truthy(payload.title) && !AllSpace(payload.title.value) ==> q.title == Trim(payload.title.value))
      && (payload.response.Some? ==> q.response == Trim(payload.response.value))
      && (payload.response.None? ==> q.response == "")
  {
    TrimEmptyIff("");
    TrimEmptyIff(OrElse(payload.keyword, ""));
    TrimIsTrimmed(OrElse(payload.keyword, ""));
    TrimIsTrimmed(OrElse(payload.title, ""));
    if Truthy(payload.title) {
      TrimEmptyIff(payload.title.value);
    }
  }

  /** The quick reply `updateQuickReply` stores in place of `current`. */
  function EditedQuickReply(current: QuickReply, payload: QuickReplyPayload): QuickReply
  {
    QuickReply(
      current.id,
      if payload.title.Some? then Trim(payload.title.value) else current.title,
      if Truthy(payload.keyword) then Trim(payload.keyword.value) else current.keyword,
      if payload.response.Some? then Trim(payload.response.value) else current.response)
  }

  /**
   * An edit keeps the id and every field the payload leaves out, and stores
   * every field it sends trimmed; the keyword changes only for a non-empty
   * one, so a keyword of whitespace alone is stored as `""`.
   */
  lemma QuickReplyEditKeepsWhatIsNotSent(current: QuickReply, payload: QuickReplyPayload)
    ensures var e := EditedQuickReply(current, payload);
      && e.id == current.id
      && (payload.title.None? ==> e.title == current.title)
      && (payload.response.None? ==> e.response == current.response)
      && (!Truthy(payload.keyword) ==> e.keyword == current.keyword)
      && (Truthy(payload.keyword) && AllSpace(payload.keyword.value) ==> e.keyword == "")
      && (payload.title.Some? ==> e.title == Trim(payload.title.value))
      && (payload.response.Some? ==> e.response == Trim(payload.response.value))
      && (Truthy(payload.keyword) ==> e.keyword == Trim(payload.keyword.value))
  {
    if Truthy(payload.keyword) {
      TrimEmptyIff(payload.keyword.value);
    }
  }

  // ---------------------------------------------------------------------
  // The store
  // ---------------------------------------------------------------------

  class Store {
    var defaultResponse: string
    var commands: seq<Command>
    var quickReplies: seq<QuickReply>
    /** How many identifiers `randomUUID` has produced for this store. */
    var issued: nat

    /**
     * Command texts are valid and distinct ignoring case; ids are distinct
     * within each list and were all drawn already.
     */
    ghost predicate Valid()
      reads this
    {
      && ValidCommandTexts(commands)
      && DistinctCommandIds(commands)
      && DistinctReplyIds(quickReplies)
      && (forall i :: 0 <= i < |commands| ==> commands[i].id in IssuedIds(issued))
      && (forall i :: 0 <= i < |quickReplies| ==> quickReplies[i].id in IssuedIds(issued))
    }

    function Contents(): Document
      reads this
    {
      Document(defaultResponse, commands, quickReplies)
    }

    /** A store created on first use holds the seeded document. */
    constructor ()
      ensures Valid()
      ensures Contents() == CreateDefaultData(0) && issued == 8
    {
      var d := CreateDefaultData(0);
      defaultResponse := d.defaultResponse;
      commands := d.commands;
      quickReplies := d.quickReplies;
      issued := 8;
      DefaultTextsValid(0);
      DefaultIdsValid(0);
    }

    /** `addCommand`. */
    method AddCommand(payload: CommandPayload) returns (r: Result<Command, StoreError>)
      requires Valid()
      modifies this
      ensures Valid()
      ensures r.Success? <==> NewCommandText(payload) != "" && !TextTaken(old(commands), NewCommandText(payload), -1)
      ensures NewCommandText(payload) == "" ==> r == Failure(BadRequest)
      ensures NewCommandText(payload) != "" && TextTaken(old(commands), NewCommandText(payload), -1) ==>
        r == Failure(Conflict)
      ensures r.Failure? ==> unchanged(this)
      ensures r.Success? ==>
        && r.value == NewCommand(payload, old(issued))
        && commands == old(commands) + [r.value]
        && issued == DrawsAfterNewCommand(payload, old(issued))
        && quickReplies == old(quickReplies) && defaultResponse == old(defaultResponse)
    {
      var text := NewCommandText(payload);
      if text == "" {
        return Failure(BadRequest);
      }
      if TextTaken(commands, text, -1) {
        return Failure(Conflict);
      }
      var command := NewCommand(payload, issued);
      var drawn := DrawsAfterNewCommand(payload, issued);
      NextUuidIsFresh(issued);
      IssuedIdsGrow(issued, drawn);
      assert command.id in IssuedIds(drawn);
      AppendKeepsValidTexts(commands, command);
      commands := commands + [command];
      issued := drawn;
      r := Success(command);
    }

    /** `updateCommand`. */
    method UpdateCommand(id: string, payload: CommandPayload) returns (r: Result<Command, StoreError>)
      requires Valid()
      modifies this
      ensures Valid()
      ensures FindFirst(old(commands), CommandIdIs(id)).None? ==> r == Failure(NotFound) && unchanged(this)
      ensures FindFirst(old(commands), CommandIdIs(id)).Some? ==>
        var i := FindFirst(old(commands), CommandIdIs(id)).value;
        var text := EditedText(old(commands)[i], payload);
        if text != "" && TextTaken(old(commands), text, i) then
          r == Failure(Conflict) && unchanged(this)
        else
          && r == Success(EditedCommand(old(commands)[i], payload, old(issued)))
          && commands == old(commands)[i := r.value]
          && issued == DrawsAfterEdit(payload, old(issued))
          && quickReplies == old(quickReplies) && defaultResponse == old(defaultResponse)
    {
      var found := FindFirst(commands, CommandIdIs(id));
      if found.None? {
        return Failure(NotFound);
      }
      var i := found.value;
      var text := EditedText(commands[i], payload);
      if text != "" && TextTaken(commands, text, i) {
        return Failure(Conflict);
      }
      var edited := EditedCommand(commands[i], payload, issued);
      EditedTextValid(commands[i], payload, issued);
      OwnTextNotTaken(commands, i);
      ReplaceKeepsValidTexts(commands, i, edited);
      var drawn := DrawsAfterEdit(payload, issued);
      IssuedIdsGrow(issued, drawn);
      commands := commands[i := edited];
      issued := drawn;
      r := Success(edited);
    }

    /** `removeCommand`: `None` when it succeeds. */
    method RemoveCommand(id: string) returns (err: Option<StoreError>)
      requires Valid()
      modifies this
      ensures Valid()
      ensures FindFirst(old(commands), CommandIdIs(id)).None? ==> err == Some(NotFound) && unchanged(this)
      ensures FindFirst(old(commands), CommandIdIs(id)).Some? ==>
        && err.None?
        && commands == RemoveAt(old(commands), FindFirst(old(commands), CommandIdIs(id)).value)
        && quickReplies == old(quickReplies) && defaultResponse == old(defaultResponse) && issued == old(issued)
    {
      var found := FindFirst(commands, CommandIdIs(id));
      if found.None? {
        return Some(NotFound);
      }
      RemoveKeepsValidTexts(commands, found.value);
      commands := RemoveAt(commands, found.value);
      err := None;
    }

    /** `addQuickReply`: keywords need not be unique. */
    method AddQuickReply(payload: QuickReplyPayload) returns (r: Result<QuickReply, StoreError>)
      requires Valid()
      modifies this
      ensures Valid()
      ensures r.Failure? <==> AllSpace(OrElse(payload.keyword, ""))
      ensures r.Failure? ==> r.error == BadRequest && unchanged(this)
      ensures r.Success? ==>
        && r.value == NewQuickReply(payload, old(issued))
        && quickReplies == old(quickReplies) + [r.value]
        && issued == old(issued) + 1
        && commands == old(commands) && defaultResponse == old(defaultResponse)
    {
      var keyword := Trim(OrElse(payload.keyword, ""));
      TrimEmptyIff(OrElse(payload.keyword, ""));
      if keyword == "" {
        return Failure(BadRequest);
      }
      var reply := NewQuickReply(payload, issued);
      NextUuidIsFresh(issued);
      IssuedIdsGrow(issued, issued + 1);
      assert reply.id in IssuedIds(issued + 1);
      quickReplies := quickReplies + [reply];
      issued := issued + 1;
      r := Success(reply);
    }

    /** `updateQuickReply`. */
    method UpdateQuickReply(id: string, payload: QuickReplyPayload) returns (r: Result<QuickReply, StoreError>)
      requires Valid()
      modifies this
      ensures Valid()
      ensures FindFirst(old(quickReplies), ReplyIdIs(id)).None? ==> r == Failure(NotFound) && unchanged(this)
      ensures FindFirst(old(quickReplies), ReplyIdIs(id)).Some? ==>
        var i := FindFirst(old(quickReplies), ReplyIdIs(id)).value;
        && r == Success(EditedQuickReply(old(quickReplies)[i], payload))
        && quickReplies == old(quickReplies)[i := r.value]
        && commands == old(commands) && defaultResponse == old(defaultResponse) && issued == old(issued)
    {
      var found := FindFirst(quickReplies, ReplyIdIs(id));
      if found.None? {
        return Failure(NotFound);
      }
      var edited := EditedQuickReply(quickReplies[found.value], payload);
      quickReplies := quickReplies[found.value := edited];
      r := Success(edited);
    }

    /** `removeQuickReply`: `None` when it succeeds. */
    method RemoveQuickReply(id: string) returns (err: Option<StoreError>)
      requires Valid()
      modifies this
      ensures Valid()
      ensures FindFirst(old(quickReplies), ReplyIdIs(id)).None? ==> err == Some(NotFound) && unchanged(this)
      ensures FindFirst(old(quickReplies), ReplyIdIs(id)).Some? ==>
        && err.None?
        && quickReplies == RemoveAt(old(quickReplies), FindFirst(old(quickReplies), ReplyIdIs(id)).value)
        && commands == old(commands) && defaultResponse == old(defaultResponse) && issued == old(issued)
    {
      var found := FindFirst(quickReplies, ReplyIdIs(id));
      if found.None? {
        return Some(NotFound);
      }
      var i := found.value;
      var rest := RemoveAt(quickReplies, i);
      forall a, b | 0 <= a < b < |rest| ensures rest[a].id != rest[b].id {
        var a' := if a < i then a else a + 1;
        var b' := if b < i then b else b + 1;
        assert rest[a] == quickReplies[a'] && rest[b] == quickReplies[b'];
      }
      quickReplies := rest;
      err := None;
    }

    /** `setDefaultResponse`: the trimmed text, `""` when none is given. */
    method SetDefaultResponse(text: Option<string>)
      requires Valid()
      modifies this
      ensures Valid()
      ensures defaultResponse == Trim(OrElse(text, "")) && Trimmed(defaultResponse)
      ensures commands == old(commands) && quickReplies == old(quickReplies) && issued == old(issued)
    {
      TrimIsTrimmed(OrElse(text, ""));
      defaultResponse := Trim(OrElse(text, ""));
    }
  }
}
