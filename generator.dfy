/** The template generator of nlp_modules/text_generator.py. Templates are
    Python `str.format` strings, modelled as literal text interleaved with
    named slots; every `random.choice` becomes an index chosen by the
    caller. */
module Generator {
  import opened TextOps

  // ----- str.format -----

  /** The placeholders that occur in the templates of text_generator.py. */
  datatype Field =
    | Setting | Character | Action | Year | Discovery | Activity | Adjective
    | Obstacle | Routine | MainActivity
    | Recipient | Sender | Purpose | Details | Greeting
    | Title | Intro | Content | Conclusion | Hook | Takeaway1 | Takeaway2 | Takeaway3

  /** A template is literal text and `{field}` placeholders in order. */
  datatype Piece = Text(s: string) | Slot(field: Field)

  function Fill(p: Piece, values: Field -> string): string {
    match p
    case Text(s) => s
    case Slot(f) => values(f)
  }

  /** `template.format(**values)`. */
  function Format(t: seq<Piece>, values: Field -> string): string
    decreases |t|
  {
    if t == [] then "" else Fill(t[0], values) + Format(t[1..], values)
  }

  /** Every piece of a template, literal or filled in, appears in the result. */
  lemma {:induction false} FormatContains(t: seq<Piece>, values: Field -> string, i: nat)
    requires i < |t|
    ensures Contains(Format(t, values), Fill(t[i], values))
    decreases |t|
  {
    var head := Fill(t[0], values);
    var rest := Format(t[1..], values);
    if i == 0 {
      ContainsSelf(head);
      ContainsWithin(head, head, [], rest);
      assert [] + head + rest == Format(t, values);
    } else {
      assert t[1..][i - 1] == t[i];
      FormatContains(t[1..], values, i - 1);
      ContainsWithin(rest, Fill(t[i], values), head, []);
      assert head + rest + [] == Format(t, values);
    }
  }

  /** The text starts with p. */
  predicate StartsWith(s: string, p: string) {
    |p| <= |s| && s[..|p|] == p
  }

  /** A template opening with text, a slot and more text starts with those
      three, filled in (k characters of the second text are kept). */
  lemma FormatOpening(t: seq<Piece>, values: Field -> string, k: nat)
    requires |t| >= 3 && t[0].Text? && t[1].Slot? && t[2].Text? && k <= |t[2].s|
    ensures StartsWith(Format(t, values), t[0].s + values(t[1].field) + t[2].s[..k])
  {
    var opening := t[0].s + values(t[1].field) + t[2].s[..k];
    var rest := Format(t[3..], values);
    assert t[1..][1..] == t[2..] && t[2..][1..] == t[3..];
    assert Format(t[2..], values) == t[2].s + rest;
    assert Format(t[1..], values) == values(t[1].field) + (t[2].s + rest);
    assert Format(t, values) == t[0].s + (values(t[1].field) + (t[2].s + rest));
    assert t[2].s == t[2].s[..k] + t[2].s[k..];
    assert Format(t, values) == opening + (t[2].s[k..] + rest);
  }

  /** The words of a generated text, as `len(text.split())`, and its length. */
  datatype Generated = Generated(generatedText: string, wordCount: nat, characterCount: nat)

  function Measure(text: string): Generated {
    Generated(text, WordCount(text), |text|)
  }

  // ----- generate_story -----

  const StoryTemplates: seq<seq<Piece>> := [
    [Text("Once upon a time in "), Slot(Setting), Text(", there lived a "), Slot(Character),
     Text(" who "), Slot(Action), Text(".")],
    [Text("In the year "), Slot(Year), Text(", "), Slot(Character), Text(" discovered "),
     Slot(Discovery), Text(" while "), Slot(Activity), Text(".")],
    [Text("The "), Slot(Adjective), Text(" "), Slot(Character), Text(" decided to "), Slot(Action),
     Text(" despite the "), Slot(Obstacle), Text(".")],
    [Text("Every morning, "), Slot(Character), Text(" would "), Slot(Routine), Text(" before "),
     Slot(MainActivity), Text(".")]
  ]

  const Settings: seq<string> := ["a distant galaxy", "ancient Rome", "modern Tokyo", "a small village", "the deep ocean", "a magical forest"]
  const Characters: seq<string> := ["brave knight", "curious scientist", "young artist", "wise elder", "mysterious stranger", "talented musician"]
  const Actions: seq<string> := ["embarked on an adventure", "made an important discovery", "faced their greatest fear", "learned a valuable lesson"]
  const Adjectives: seq<string> := ["determined", "creative", "ambitious", "thoughtful", "innovative", "passionate"]
  const Years: seq<string> := ["2025", "2030", "2040", "3025", "1995", "2050"]
  const Discoveries: seq<string> := ["a hidden treasure", "ancient wisdom", "new technology", "a secret passage", "magical powers"]
  const Activities: seq<string> := ["exploring caves", "reading old books", "experimenting in the lab", "traveling the world"]
  const Obstacles: seq<string> := ["terrible storm", "lack of resources", "fierce competition", "personal doubts"]
  const Routines: seq<string> := ["meditate quietly", "practice their craft", "study ancient texts", "exercise vigorously"]
  const Consequences: seq<string> := ["unexpected consequences", "new friendships", "great success", "valuable lessons"]
  const Outcomes: seq<string> := ["achieved their goal", "found peace", "inspired others", "discovered their true purpose"]

  /** The words `random.choice` draws for a story. */
  datatype StoryWords = StoryWords(
    setting: string, character: string, action: string, year: string, discovery: string,
    activity: string, adjective: string, obstacle: string, routine: string, mainActivity: string,
    consequence: string, outcome: string)

  /** Each word comes from its own bank, as `random.choice` guarantees. */
  predicate Drawn(w: StoryWords) {
    w.setting in Settings && w.character in Characters && w.action in Actions &&
    w.year in Years && w.discovery in Discoveries && w.activity in Activities &&
    w.adjective in Adjectives && w.obstacle in Obstacles && w.routine in Routines &&
    w.mainActivity in Activities && w.consequence in Consequences && w.outcome in Outcomes
  }

  /** The word for each placeholder; e-mail and blog fields are unused. */
  function StoryValue(w: StoryWords, f: Field): string {
    match f
    case Setting => w.setting
    case Character => w.character
    case Action => w.action
    case Year => w.year
    case Discovery => w.discovery
    case Activity => w.activity
    case Adjective => w.adjective
    case Obstacle => w.obstacle
    case Routine => w.routine
    case MainActivity => w.mainActivity
    case _ => ""
  }

  function StoryValues(w: StoryWords): Field -> string {
    f => StoryValue(w, f)
  }

  /** The chosen template filled with the drawn words. */
  function StoryBase(t: seq<Piece>, w: StoryWords): string {
    Format(t, StoryValues(w))
  }

  /** The sentence a "medium" story gains. */
  function LedTo(w: StoryWords): string {
    " This led to " + w.consequence + "."
  }

  /** The further sentence a "long" story gains. */
  function Eventually(w: StoryWords): string {
    " Eventually, they " + w.outcome + "."
  }

  function Extension(length: string, w: StoryWords): string {
    if length == "medium" then LedTo(w)
    else if length == "long" then LedTo(w) + Eventually(w)
    else ""
  }

  function ThemePrefix(theme: string): string {
    if theme != "" then "[Theme: " + theme + "] " else ""
  }

  /** `generate_story(theme, length)` with the template and the words
      `random.choice` drew. The filled template appears whole in the story,
      so does the theme, and the counts are those of the story's text. */
  function GenerateStory(theme: string, length: string, t: seq<Piece>, w: StoryWords): (r: Generated)
    ensures r.wordCount == WordCount(r.generatedText) && r.characterCount == |r.generatedText|
    ensures Contains(r.generatedText, StoryBase(t, w)) && Contains(r.generatedText, theme)
  {
    var base := StoryBase(t, w);
    ContainsSelf(base);
    InStory(ThemePrefix(theme), base, Extension(length, w), base);
    ThemeMentioned(theme, base + Extension(length, w));
    Measure(ThemePrefix(theme) + (base + Extension(length, w)))
  }

  /** "medium" adds one "This led to ..." sentence to the short story, "long"
      adds one "Eventually, they ..." sentence to that, and any other length
      is the short story; each added sentence adds its own words to the count. */
  lemma StoryLengths(theme: string, length: string, t: seq<Piece>, w: StoryWords)
    ensures var short := GenerateStory(theme, "short", t, w);
      var medium := GenerateStory(theme, "medium", t, w);
      var long := GenerateStory(theme, "long", t, w);
      && medium.generatedText == short.generatedText + LedTo(w)
      && long.generatedText == medium.generatedText + Eventually(w)
      && (length != "medium" && length != "long" ==> GenerateStory(theme, length, t, w) == short)
      && medium.wordCount == short.wordCount + WordCount(LedTo(w)) > short.wordCount
      && long.wordCount == medium.wordCount + WordCount(Eventually(w)) > medium.wordCount
      && long.characterCount == short.characterCount + |LedTo(w)| + |Eventually(w)|
  {
    var pre := ThemePrefix(theme);
    var base := StoryBase(t, w);
    Regroup(pre, base, LedTo(w), Eventually(w));
    SentenceStart(" This led to ", w.consequence);
    SentenceStart(" Eventually, they ", w.outcome);
    AddSentence(pre + base, LedTo(w));
    AddSentence(pre + base + LedTo(w), Eventually(w));
  }

  lemma SentenceStart(lead: string, x: string)
    requires |lead| >= 2
    ensures |lead + x + "."| > 1
    ensures (lead + x + ".")[0] == lead[0] && (lead + x + ".")[1] == lead[1]
  {
  }

  lemma Regroup(a: string, b: string, c: string, d: string)
    ensures a + (b + "") == a + b
    ensures a + (b + c) == a + b + c
    ensures a + (b + (c + d)) == a + b + c + d
  {
  }

  /** A sentence that starts with a space and then a word adds its own words. */
  lemma AddSentence(s: string, e: string)
    requires |e| > 1 && e[0] == ' ' && IsLetter(e[1])
    ensures WordCount(s + e) == WordCount(s) + WordCount(e) > WordCount(s)
  {
    WordCountAppend(s, e);
    HasWord(e, 1);
  }

  /** A non-empty theme puts "[Theme: theme] " in front of the untitled
      story and adds its words to the count; an empty one changes nothing. */
  lemma StoryTheme(theme: string, length: string, t: seq<Piece>, w: StoryWords)
    ensures var titled := GenerateStory(theme, length, t, w);
      var plain := GenerateStory("", length, t, w);
      && (theme == "" ==> titled == plain)
      && (theme != "" ==>
            && titled.generatedText == "[Theme: " + theme + "] " + plain.generatedText
            && StartsWith(titled.generatedText, "[Theme: " + theme + "] ")
            && titled.wordCount == WordCount("[Theme: " + theme + "] ") + plain.wordCount)
  {
    var pre := "[Theme: " + theme + "] ";
    var story := StoryBase(t, w) + Extension(length, w);
    assert "" + story == story;
    if theme != "" {
      assert (pre + story)[..|pre|] == pre;
      WordCountAppend(pre, story);
    }
  }

  /** Every placeholder of the chosen template is filled with its word, and
      every word appears in the story. */
  lemma StorySlots(theme: string, length: string, t: seq<Piece>, w: StoryWords)
    ensures var text := GenerateStory(theme, length, t, w).generatedText;
      forall i :: 0 <= i < |t| && t[i].Slot? ==> Contains(text, StoryValue(w, t[i].field))
  {
    var values := StoryValues(w);
    var pre := ThemePrefix(theme);
    var ext := Extension(length, w);
    forall i | 0 <= i < |t| && t[i].Slot?
      ensures Contains(pre + (StoryBase(t, w) + ext), StoryValue(w, t[i].field))
    {
      FormatContains(t, values, i);
      InStory(pre, StoryBase(t, w), ext, Fill(t[i], values));
    }
  }

  /** Some placeholder of the template is the character. */
  predicate NamesCharacter(t: seq<Piece>) {
    exists i :: 0 <= i < |t| && t[i] == Slot(Character)
  }

  /** Every story template has a character placeholder. */
  lemma EveryTemplateNamesCharacter(t: seq<Piece>)
    requires t in StoryTemplates
    ensures NamesCharacter(t)
  {
    var k :| 0 <= k < |StoryTemplates| && StoryTemplates[k] == t;
    var c := if k == 3 then 1 else 3;
    assert t[c] == Slot(Character);
  }

  /** Every story template names a character, so every story mentions the
      drawn one, and the story mentions its theme. */
  lemma StoryMentions(theme: string, length: string, t: seq<Piece>, w: StoryWords)
    requires t in StoryTemplates
    ensures var text := GenerateStory(theme, length, t, w).generatedText;
      Contains(text, w.character) && Contains(text, theme)
  {
    StorySlots(theme, length, t, w);
    EveryTemplateNamesCharacter(t);
    ThemeMentioned(theme, StoryBase(t, w) + Extension(length, w));
  }

  /** With a template and words drawn from the lists of text_generator.py,
      the story names one of the bank's characters. */
  lemma StoryCharacterFromBank(theme: string, length: string, t: seq<Piece>, w: StoryWords)
    requires t in StoryTemplates && Drawn(w)
    ensures exists c :: c in Characters && Contains(GenerateStory(theme, length, t, w).generatedText, c)
  {
    StoryMentions(theme, length, t, w);
  }

  lemma InStory(pre: string, base: string, ext: string, x: string)
    requires Contains(base, x)
    ensures Contains(pre + (base + ext), x)
  {
    ContainsWithin(base, x, pre, ext);
    assert pre + base + ext == pre + (base + ext);
  }

  lemma ThemeMentioned(theme: string, story: string)
    ensures Contains(ThemePrefix(theme) + story, theme)
  {
    var text := ThemePrefix(theme) + story;
    if theme == "" {
      assert OccursAt(text, theme, 0);
      ContainsIffOccurs(text, theme);
    } else {
      ContainsSelf(theme);
      ContainsWithin(theme, theme, "[Theme: ", "] " + story);
      assert "[Theme: " + theme + ("] " + story) == text;
    }
  }

  // ----- generate_email -----

  datatype EmailStyle = Professional | Casual | Formal

  /** `self.email_templates.get(style, self.email_templates["professional"])`. */
  function StyleOf(style: string): EmailStyle {
    if style == "casual" then Casual
    else if style == "formal" then Formal
    else Professional
  }

  const ProfessionalTemplate: seq<Piece> :=
    [Text("Dear "), Slot(Recipient), Text(",\n\nI hope this email finds you well. I am writing to "),
     Slot(Purpose), Text(". "), Slot(Details), Text("\n\nBest regards,\n"), Slot(Sender)]
  const CasualTemplate: seq<Piece> :=
    [Text("Hi "), Slot(Recipient), Text("!\n\n"), Slot(Greeting), Text(" I wanted to "),
     Slot(Purpose), Text(". "), Slot(Details), Text("\n\nTalk soon,\n"), Slot(Sender)]
  const FormalTemplate: seq<Piece> :=
    [Text("Dear "), Slot(Recipient), Text(",\n\nI am writing to formally "), Slot(Purpose),
     Text(". "), Slot(Details), Text("\n\nSincerely,\n"), Slot(Sender)]

  function EmailTemplate(s: EmailStyle): seq<Piece> {
    match s
    case Professional => ProfessionalTemplate
    case Casual => CasualTemplate
    case Formal => FormalTemplate
  }

  /** The four kinds of purpose the generator tells apart. */
  datatype Tone = MeetingRequest | FollowUp | Thanks | Plain

  const MeetingDetails := "I would like to schedule a meeting to discuss this matter further. Please let me know your availability."
  const FollowUpDetails := "I wanted to follow up on our previous conversation and see if you had any questions."
  const ThanksDetails := "I wanted to express my sincere gratitude for your time and assistance."
  const PlainDetails := "I look forward to your response and any feedback you might have."

  const MeetingGreeting := "Hope you're having a great day!"
  const FollowUpGreeting := "Hope you're doing well!"
  const ThanksGreeting := "Hope this finds you well!"
  const PlainGreeting := "Hope you're having a wonderful day!"

  function ToneDetails(t: Tone): string {
    match t
    case MeetingRequest => MeetingDetails
    case FollowUp => FollowUpDetails
    case Thanks => ThanksDetails
    case Plain => PlainDetails
  }

  function ToneGreeting(t: Tone): string {
    match t
    case MeetingRequest => MeetingGreeting
    case FollowUp => FollowUpGreeting
    case Thanks => ThanksGreeting
    case Plain => PlainGreeting
  }

  /** The kind of purpose, from the lower-cased purpose text. */
  function ToneOf(purpose: string): Tone {
    var p := Lower(purpose);
    if Contains(p, "meeting") then MeetingRequest
    else if Contains(p, "follow") then FollowUp
    else if Contains(p, "thank") then Thanks
    else Plain
  }

  function EmailValue(recipient: string, sender: string, purpose: string, tone: Tone, f: Field): string {
    match f
    case Recipient => recipient
    case Sender => sender
    case Purpose => purpose
    case Details => ToneDetails(tone)
    case Greeting => ToneGreeting(tone)
    case _ => ""
  }

  function EmailValues(recipient: string, sender: string, purpose: string, tone: Tone): Field -> string {
    f => EmailValue(recipient, sender, purpose, tone, f)
  }

  /** The e-mail of a style for a purpose of the given kind. */
  function Email(s: EmailStyle, purpose: string, recipient: string, sender: string, tone: Tone): Generated {
    Measure(Format(EmailTemplate(s), EmailValues(recipient, sender, purpose, tone)))
  }

  /** `generate_email(style, purpose, recipient, sender)`: whatever the
      style, the e-mail names the recipient, the purpose and the sender, and
      the counts are those of its text. */
  function GenerateEmail(style: string, purpose: string, recipient: string, sender: string): (r: Generated)
    ensures r.wordCount == WordCount(r.generatedText) && r.characterCount == |r.generatedText|
    ensures Contains(r.generatedText, recipient) && Contains(r.generatedText, purpose)
    ensures Contains(r.generatedText, sender)
  {
    EmailMentions(StyleOf(style), purpose, recipient, sender, ToneOf(purpose));
    Email(StyleOf(style), purpose, recipient, sender, ToneOf(purpose))
  }

  /** Any style other than "casual" and "formal" writes the professional e-mail. */
  lemma UnknownStyleIsProfessional(style: string, purpose: string, recipient: string, sender: string)
    requires style != "casual" && style != "formal"
    ensures GenerateEmail(style, purpose, recipient, sender) ==
            GenerateEmail("professional", purpose, recipient, sender)
  {
  }

  /** The first of "meeting", "follow" and "thank" found in the lower-cased
      purpose decides the details and greeting; none of them gives the default. */
  lemma ToneRule(purpose: string)
    ensures var p := Lower(purpose);
      && (ToneOf(purpose) == MeetingRequest <==> Contains(p, "meeting"))
      && (ToneOf(purpose) == FollowUp <==> !Contains(p, "meeting") && Contains(p, "follow"))
      && (ToneOf(purpose) == Thanks <==>
            !Contains(p, "meeting") && !Contains(p, "follow") && Contains(p, "thank"))
      && (ToneOf(purpose) == Plain <==>
            !Contains(p, "meeting") && !Contains(p, "follow") && !Contains(p, "thank"))
  {
  }

  /** The e-mail greets the recipient, states the purpose and the details of
      its kind of purpose, and is signed by the sender; the casual style also
      carries the greeting line. `GenerateEmail` is the e-mail of style
      `StyleOf(style)` for the kind `ToneOf(purpose)`. */
  lemma EmailMentions(s: EmailStyle, purpose: string, recipient: string, sender: string, tone: Tone)
    ensures var text := Email(s, purpose, recipient, sender, tone).generatedText;
      && Contains(text, recipient) && Contains(text, purpose)
      && Contains(text, ToneDetails(tone)) && Contains(text, sender)
      && (s == Casual ==> StartsWith(text, "Hi " + recipient) && Contains(text, ToneGreeting(tone)))
      && (s != Casual ==> StartsWith(text, "Dear " + recipient))
  {
    TemplateMentions(s, EmailValues(recipient, sender, purpose, tone));
    EmailValueFacts(purpose, recipient, sender, tone);
  }

  lemma EmailValueFacts(purpose: string, recipient: string, sender: string, tone: Tone)
    ensures var values := EmailValues(recipient, sender, purpose, tone);
      && values(Recipient) == recipient && values(Purpose) == purpose && values(Sender) == sender
      && values(Details) == ToneDetails(tone) && values(Greeting) == ToneGreeting(tone)
  {
  }

  /** Where each value sits in an e-mail template, and how it opens. */
  lemma EmailTemplateShape(s: EmailStyle)
    ensures var t := EmailTemplate(s);
      var g := if s == Casual then 2 else 0;
      && |t| == 8 + g && t[1] == Slot(Recipient) && t[2].Text?
      && t[3 + g] == Slot(Purpose) && t[5 + g] == Slot(Details) && t[7 + g] == Slot(Sender)
      && (s == Casual ==> t[0] == Text("Hi ") && t[3] == Slot(Greeting))
      && (s != Casual ==> t[0] == Text("Dear "))
  {
  }

  /** A template of that shape shows each value and opens by addressing the
      recipient. */
  lemma EmailFromShape(t: seq<Piece>, values: Field -> string, g: nat, opening: string)
    requires |t| == 8 + g && t[0] == Text(opening) && t[1] == Slot(Recipient) && t[2].Text?
    requires t[3 + g] == Slot(Purpose) && t[5 + g] == Slot(Details) && t[7 + g] == Slot(Sender)
    ensures var text := Format(t, values);
      && Contains(text, values(Recipient)) && Contains(text, values(Purpose))
      && Contains(text, values(Details)) && Contains(text, values(Sender))
      && StartsWith(text, opening + values(Recipient))
  {
    FormatContains(t, values, 1);
    FormatContains(t, values, 3 + g);
    FormatContains(t, values, 5 + g);
    FormatContains(t, values, 7 + g);
    FormatOpening(t, values, 0);
    assert opening + values(Recipient) + t[2].s[..0] == opening + values(Recipient);
  }

  /** What each e-mail template shows of the values it is filled with. */
  lemma TemplateMentions(s: EmailStyle, values: Field -> string)
    ensures var text := Format(EmailTemplate(s), values);
      && Contains(text, values(Recipient)) && Contains(text, values(Purpose))
      && Contains(text, values(Details)) && Contains(text, values(Sender))
      && (s == Casual ==>
            StartsWith(text, "Hi " + values(Recipient)) && Contains(text, values(Greeting)))
      && (s != Casual ==> StartsWith(text, "Dear " + values(Recipient)))
  {
    EmailTemplateShape(s);
    var t := EmailTemplate(s);
    if s == Casual {
      EmailFromShape(t, values, 2, "Hi ");
      FormatContains(t, values, 3);
    } else {
      EmailFromShape(t, values, 0, "Dear ");
    }
  }

  // ----- generate_blog_post -----

  const BlogTemplates: seq<seq<Piece>> := [
    [Text("# "), Slot(Title), Text("\n\n"), Slot(Intro), Text("\n\n## Main Points\n\n"), Slot(Content),
     Text("\n\n## Conclusion\n\n"), Slot(Conclusion)],
    [Text("# "), Slot(Title), Text("\n\n"), Slot(Hook), Text("\n\n"), Slot(Content),
     Text("\n\n**Key Takeaways:**\n- "), Slot(Takeaway1), Text("\n- "), Slot(Takeaway2),
     Text("\n- "), Slot(Takeaway3)]
  ]

  const ClosingLine := "In summary, these insights can help guide future decisions and actions."
  const Opening := "Have you ever wondered about this topic?"
  const Padding := "Consider the broader implications"

  function Introduction(title: string): string {
    "In this post, we'll explore " + Lower(title) + " and discuss why it matters in today's world."
  }

  function Section(point: string): string {
    "### " + point + "\n\nThis is an important aspect that deserves careful consideration."
  }

  function Sections(points: seq<string>): (r: seq<string>)
    ensures |r| == |points|
    decreases |points|
  {
    if points == [] then [] else [Section(points[0])] + Sections(points[1..])
  }

  /** One section per main point, separated by blank lines. */
  function BlogContent(points: seq<string>): string {
    Join(Sections(points), "\n\n")
  }

  /** Exactly three takeaways: the first three points, padded when fewer. */
  function Takeaways(points: seq<string>): (r: seq<string>)
    ensures |r| == 3
    ensures forall i :: 0 <= i < 3 ==> r[i] == if i < |points| then points[i] else Padding
  {
    if |points| >= 3 then points[..3] else points + seq(3 - |points|, _ => Padding)
  }

  function BlogValue(title: string, points: seq<string>, f: Field): string {
    match f
    case Title => title
    case Intro => Introduction(title)
    case Content => BlogContent(points)
    case Conclusion => ClosingLine
    case Hook => Opening
    case Takeaway1 => Takeaways(points)[0]
    case Takeaway2 => Takeaways(points)[1]
    case Takeaway3 => Takeaways(points)[2]
    case _ => ""
  }

  function BlogValues(title: string, points: seq<string>): Field -> string {
    f => BlogValue(title, points, f)
  }

  /** `generate_blog_post(title, main_points)` with the template
      `random.choice` drew. A template of the shape both templates have opens
      with the title as a heading and shows the content; the counts are those
      of the post's text. */
  function GenerateBlogPost(title: string, points: seq<string>, t: seq<Piece>): (r: Generated)
    ensures r.wordCount == WordCount(r.generatedText) && r.characterCount == |r.generatedText|
    ensures HeadedBlog(t) ==>
      StartsWith(r.generatedText, "# " + title + "\n\n") && Contains(r.generatedText, BlogContent(points))
  {
    var values := BlogValues(title, points);
    if HeadedBlog(t) then
      BlogFromShape(t, values);
      TitleValue(title, points);
      ContentValue(title, points);
      Measure(Format(t, values))
    else
      Measure(Format(t, values))
  }

  lemma {:induction false} SectionsAt(points: seq<string>, i: nat)
    requires i < |points|
    ensures Sections(points)[i] == Section(points[i])
    decreases |points|
  {
    if i > 0 {
      SectionsAt(points[1..], i - 1);
    }
  }

  /** Sections follow the points in order: one more point appends its
      section after a blank line. */
  lemma {:induction false} ContentInOrder(points: seq<string>, point: string)
    ensures BlogContent(points + [point]) ==
            if points == [] then Section(point) else BlogContent(points) + "\n\n" + Section(point)
    decreases |points|
  {
    assert Sections(points + [point]) == Sections(points) + [Section(point)] by {
      SectionsSnoc(points, point);
    }
    if points != [] {
      JoinSnoc(Sections(points), "\n\n", Section(point));
    }
  }

  lemma {:induction false} SectionsSnoc(points: seq<string>, point: string)
    ensures Sections(points + [point]) == Sections(points) + [Section(point)]
    decreases |points|
  {
    if points != [] {
      assert (points + [point])[1..] == points[1..] + [point];
      SectionsSnoc(points[1..], point);
    }
  }

  /** Piece i of t is text ending in "- ". */
  predicate DashBefore(t: seq<Piece>, i: nat) {
    i < |t| && t[i].Text? && |t[i].s| >= 2 &&
    t[i].s[|t[i].s| - 2] == '-' && t[i].s[|t[i].s| - 1] == ' '
  }

  /** Both blog templates open with the title as a heading and have the
      content in the same place. */
  predicate HeadedBlog(t: seq<Piece>) {
    |t| >= 8 && t[0] == Text("# ") && t[1] == Slot(Title) && t[2] == Text("\n\n") && t[5] == Slot(Content)
  }

  /** The second template lists the takeaways, each after a dash. */
  predicate TakeawayBlog(t: seq<Piece>) {
    |t| == 12 && t[7] == Slot(Takeaway1) && t[9] == Slot(Takeaway2) && t[11] == Slot(Takeaway3) &&
    DashBefore(t, 6) && DashBefore(t, 8) && DashBefore(t, 10)
  }

  /** Where each value sits in the blog templates. */
  lemma BlogTemplateShape()
    ensures forall t :: t in BlogTemplates ==> HeadedBlog(t)
    ensures BlogTemplates[0][3] == Slot(Intro)
    ensures TakeawayBlog(BlogTemplates[1])
  {
    assert HeadedBlog(BlogTemplates[0]);
    assert HeadedBlog(BlogTemplates[1]);
  }

  /** A blog template of that shape opens with the title as a heading and
      shows the content, and the introduction when it has one. */
  lemma BlogFromShape(t: seq<Piece>, values: Field -> string)
    requires HeadedBlog(t)
    ensures var text := Format(t, values);
      && StartsWith(text, "# " + values(Title) + "\n\n")
      && Contains(text, values(Content))
      && (t[3] == Slot(Intro) ==> Contains(text, values(Intro)))
  {
    FormatOpening(t, values, 2);
    assert t[2].s[..2] == "\n\n";
    FormatContains(t, values, 5);
    FormatContains(t, values, 3);
  }

  /** A template with a dash before each takeaway slot shows each takeaway
      after a dash. */
  lemma TakeawaysFromShape(t: seq<Piece>, values: Field -> string)
    requires TakeawayBlog(t)
    ensures var text := Format(t, values);
      && Contains(text, "- " + values(Takeaway1)) && Contains(text, "- " + values(Takeaway2))
      && Contains(text, "- " + values(Takeaway3))
  {
    TakeawayFollowsDash(t, values, 7);
    TakeawayFollowsDash(t, values, 9);
    TakeawayFollowsDash(t, values, 11);
  }

  /** The lower-cased title appears in the introduction. */
  lemma IntroductionMentions(title: string)
    ensures Contains(Introduction(title), Lower(title))
  {
    ContainsSelf(Lower(title));
    ContainsWithin(Lower(title), Lower(title), "In this post, we'll explore ",
                   " and discuss why it matters in today's world.");
  }

  /** Each point's section appears in the content. */
  lemma ContentMentions(points: seq<string>, i: nat)
    requires i < |points|
    ensures Contains(BlogContent(points), Section(points[i]))
  {
    SectionsAt(points, i);
    JoinContains(Sections(points), "\n\n", i);
  }

  /** Both templates open with the title as a heading and carry one section
      per point. */
  lemma BlogSections(title: string, points: seq<string>, t: seq<Piece>)
    requires t in BlogTemplates
    ensures var text := GenerateBlogPost(title, points, t).generatedText;
      && StartsWith(text, "# " + title + "\n\n")
      && (forall i :: 0 <= i < |points| ==> Contains(text, Section(points[i])))
  {
    var values := BlogValues(title, points);
    var text := Format(t, values);
    BlogTemplateShape();
    BlogFromShape(t, values);
    TitleValue(title, points);
    ContentValue(title, points);
    forall i | 0 <= i < |points| ensures Contains(text, Section(points[i])) {
      ContentMentions(points, i);
      ContainsTrans(text, BlogContent(points), Section(points[i]));
    }
  }

  /** The first template mentions the lower-cased title in its introduction. */
  lemma BlogIntroduction(title: string, points: seq<string>)
    ensures Contains(GenerateBlogPost(title, points, BlogTemplates[0]).generatedText, Lower(title))
  {
    var values := BlogValues(title, points);
    var t := BlogTemplates[0];
    BlogTemplateShape();
    BlogFromShape(t, values);
    IntroValue(title, points);
    IntroductionMentions(title);
    ContainsTrans(Format(t, values), Introduction(title), Lower(title));
  }

  /** The second template lists the three takeaways, each after a dash. */
  lemma BlogTakeaways(title: string, points: seq<string>)
    ensures var text := GenerateBlogPost(title, points, BlogTemplates[1]).generatedText;
      && Contains(text, "- " + Takeaways(points)[0])
      && Contains(text, "- " + Takeaways(points)[1])
      && Contains(text, "- " + Takeaways(points)[2])
  {
    BlogTemplateShape();
    TakeawaysFromShape(BlogTemplates[1], BlogValues(title, points));
    TakeawayValues(title, points);
  }

  lemma TitleValue(title: string, points: seq<string>)
    ensures BlogValues(title, points)(Title) == title
  {
  }

  lemma ContentValue(title: string, points: seq<string>)
    ensures BlogValues(title, points)(Content) == BlogContent(points)
  {
  }

  lemma IntroValue(title: string, points: seq<string>)
    ensures BlogValues(title, points)(Intro) == Introduction(title)
  {
  }

  lemma TakeawayValues(title: string, points: seq<string>)
    ensures BlogValues(title, points)(Takeaway1) == Takeaways(points)[0]
    ensures BlogValues(title, points)(Takeaway2) == Takeaways(points)[1]
    ensures BlogValues(title, points)(Takeaway3) == Takeaways(points)[2]
  {
  }

  /** A slot that follows text ending in "- " appears right after the dash. */
  lemma TakeawayFollowsDash(t: seq<Piece>, values: Field -> string, slot: nat)
    requires 0 < slot < |t| && DashBefore(t, slot - 1)
    ensures Contains(Format(t, values), "- " + Fill(t[slot], values))
  {
    FormatPair(t, values, slot - 1);
    AfterDash(t[slot - 1].s, Fill(t[slot], values));
    ContainsTrans(Format(t, values), t[slot - 1].s + Fill(t[slot], values), "- " + Fill(t[slot], values));
  }

  lemma AfterDash(lead: string, x: string)
    requires |lead| >= 2 && lead[|lead| - 2] == '-' && lead[|lead| - 1] == ' '
    ensures Contains(lead + x, "- " + x)
  {
    var n := |lead| - 2;
    assert (lead + x)[n..n + 2 + |x|] == "- " + x;
    assert OccursAt(lead + x, "- " + x, n);
    ContainsIffOccurs(lead + x, "- " + x);
  }

  /** Two neighbouring pieces appear side by side in the formatted text. */
  lemma {:induction false} FormatPair(t: seq<Piece>, values: Field -> string, i: nat)
    requires i + 1 < |t|
    ensures Contains(Format(t, values), Fill(t[i], values) + Fill(t[i + 1], values))
    decreases |t|
  {
    var head := Fill(t[0], values);
    var rest := Format(t[1..], values);
    var pair := Fill(t[i], values) + Fill(t[i + 1], values);
    if i == 0 {
      var tail := Format(t[2..], values);
      assert rest == Fill(t[1], values) + tail;
      ContainsSelf(pair);
      ContainsWithin(pair, pair, [], tail);
      assert [] + pair + tail == Format(t, values);
    } else {
      assert t[1..][i - 1] == t[i] && t[1..][i] == t[i + 1];
      FormatPair(t[1..], values, i - 1);
      ContainsWithin(rest, pair, head, []);
      assert head + rest + [] == Format(t, values);
    }
  }

  // ----- continue_text -----

  /** The continuation sentences of each style; every one is added after a
      single space. */
  function Sentences(style: string): seq<string> {
    if style == "creative" then [
      "This sparked a new idea that would change everything.",
      "Little did they know, this was just the beginning.",
      "The implications of this were far-reaching.",
      "Something unexpected was about to happen.",
      "This moment would be remembered for years to come."]
    else if style == "informative" then [
      "Research shows that this approach has several benefits.",
      "It's important to consider the following factors.",
      "This concept can be applied in various contexts.",
      "Further analysis reveals additional insights.",
      "These findings suggest new possibilities."]
    else if style == "conversational" then [
      "You might be wondering what happened next.",
      "I think you'll find this interesting.",
      "This reminds me of something similar.",
      "Here's what I learned from this experience.",
      "Let me tell you what happened after that."]
    else [
      "This leads to several important considerations.",
      "The next step involves careful planning.",
      "These developments warrant further attention.",
      "Such circumstances require thoughtful analysis."]
  }

  /** The `continuations` list of a style: each sentence after a space. */
  function Continuations(style: string): (r: seq<string>)
    ensures |r| == |Sentences(style)|
    ensures forall k :: 0 <= k < |r| ==> r[k] == " " + Sentences(style)[k]
  {
    Spaced(Sentences(style))
  }

  function Spaced(xs: seq<string>): (r: seq<string>)
    ensures |r| == |xs|
    ensures forall k :: 0 <= k < |r| ==> r[k] == " " + xs[k]
    decreases |xs|
  {
    if xs == [] then [] else [" " + xs[0]] + Spaced(xs[1..])
  }

  datatype Continued = Continued(generatedText: string, originalLength: nat, newLength: nat, addedText: string)

  /** `continue_text(input_text, style)` with the index of the chosen
      continuation: the input is kept whole and followed by one sentence of
      the style's list; since every continuation starts with a space, the new
      word count is the old one plus the added words. */
  function ContinueText(input: string, style: string, pick: nat): (r: Continued)
    requires pick < |Continuations(style)|
    ensures r.generatedText == input + r.addedText && r.addedText in Continuations(style)
    ensures r.originalLength == WordCount(input)
    ensures r.newLength == r.originalLength + WordCount(r.addedText)
  {
    var continuation := Continuations(style)[pick];
    var text := input + continuation;
    assert continuation[0] == ' ';
    WordCountAppend(input, continuation);
    Continued(text, WordCount(input), WordCount(text), continuation)
  }

  /** Styles other than "creative", "informative" and "conversational"
      continue with the default list. */
  lemma UnknownStyleContinuesDefault(style: string)
    ensures style !in {"creative", "informative", "conversational"} ==>
      Continuations(style) == Continuations("default")
  {
  }
}
