/** The theme-templated enhancement of `murphy/src/lib/gemini.ts`: the theme
    table, the check that refuses a theme outside it, and the three
    per-theme templates for the title, the description and the body. */
module Gemini {
  import opened Wrappers
  import opened Strings
  import opened Podcast

  // ---------------------------------------------------------------- themes

  datatype Theme = Casual | Professional | Educational | Entertaining | Storytelling | Interview | News | Motivational

  /** The key of a theme in `themePrompts` and the other tables. */
  function ThemeKey(theme: Theme): string {
    match theme
    case Casual => "casual"
    case Professional => "professional"
    case Educational => "educational"
    case Entertaining => "entertaining"
    case Storytelling => "storytelling"
    case Interview => "interview"
    case News => "news"
    case Motivational => "motivational"
  }

  /** The eight keys of `themePrompts`. */
  const ThemeKeys: set<string> :=
    {"casual", "professional", "educational", "entertaining", "storytelling", "interview", "news", "motivational"}

  /** The lookup `themePrompts[theme]`: the theme with that key, if any. */
  function ThemeOf(name: string): (r: Option<Theme>)
    ensures r.Some? ==> ThemeKey(r.value) == name
  {
    if name == "casual" then Some(Casual)
    else if name == "professional" then Some(Professional)
    else if name == "educational" then Some(Educational)
    else if name == "entertaining" then Some(Entertaining)
    else if name == "storytelling" then Some(Storytelling)
    else if name == "interview" then Some(Interview)
    else if name == "news" then Some(News)
    else if name == "motivational" then Some(Motivational)
    else None
  }

  /** The lookup finds a theme exactly for the eight keys, and the theme it
      finds is the one with that key. */
  lemma ThemeLookup(name: string, theme: Theme)
    ensures ThemeOf(ThemeKey(theme)) == Some(theme)
    ensures ThemeOf(name).Some? <==> name in ThemeKeys
    ensures ThemeOf(name).Some? ==> ThemeKey(ThemeOf(name).value) == name
  {
  }

  /** A theme's system prompt and style, the entries of `themePrompts`. */
  datatype ThemePrompt = ThemePrompt(system: string, style: string)

  function PromptOf(theme: Theme): ThemePrompt {
    match theme
    case Casual => ThemePrompt(
      "You are a friendly, conversational podcast content enhancer. Make the content feel like a chat between friends.",
      "conversational, approachable, use 'we' and 'you', add casual transitions")
    case Professional => ThemePrompt(
      "You are a professional content enhancer for business podcasts. Maintain a formal, authoritative tone.",
      "formal, structured, authoritative, use industry terminology appropriately")
    case Educational => ThemePrompt(
      "You are an educational content enhancer. Focus on clarity, learning objectives, and step-by-step explanations.",
      "clear, informative, structured with learning points, use examples and analogies")
    case Entertaining => ThemePrompt(
      "You are an entertainment-focused content enhancer. Make the content engaging, fun, and memorable.",
      "engaging, humorous where appropriate, use storytelling elements, add hooks")
    case Storytelling => ThemePrompt(
      "You are a narrative content enhancer. Structure content with compelling story arcs and dramatic elements.",
      "narrative-driven, use story structure, create tension and resolution, vivid descriptions")
    case Interview => ThemePrompt(
      "You are an interview-style content enhancer. Structure content as engaging questions and detailed answers.",
      "question-answer format, natural conversation flow, follow-up questions")
    case News => ThemePrompt(
      "You are a journalistic content enhancer. Focus on facts, objectivity, and timely information.",
      "factual, objective, structured like news reports, include relevant context")
    case Motivational => ThemePrompt(
      "You are a motivational content enhancer. Inspire and energize the audience with uplifting content.",
      "inspiring, energetic, use action-oriented language, include calls to action")
  }

  // ------------------------------------------------------------- templates

  /** A template string with one hole: the text before and after it. */
  datatype Template = Template(before: string, after: string)

  function Fill(template: Template, hole: string): string {
    template.before + hole + template.after
  }

  /** What fills a template's hole can be read back from the filled text. */
  lemma FillRecoverable(template: Template, hole: string)
    ensures |Fill(template, hole)| == |template.before| + |hole| + |template.after|
    ensures Fill(template, hole)[|template.before|..|template.before| + |hole|] == hole
    ensures StartsWith(Fill(template, hole), template.before)
    ensures EndsWith(Fill(template, hole), template.after)
  {
    var r := Fill(template, hole);
    assert r[..|template.before|] == template.before;
    assert r[|r| - |template.after|..] == template.after;
    assert r[|template.before|..|template.before| + |hole|] == hole;
  }

  /** Filling one template with two holes gives two texts, unless the holes
      are equal. */
  lemma FillInjective(template: Template, hole1: string, hole2: string)
    requires Fill(template, hole1) == Fill(template, hole2)
    ensures hole1 == hole2
  {
    FillRecoverable(template, hole1);
    FillRecoverable(template, hole2);
  }

  function TitleTemplate(theme: Theme): Template {
    match theme
    case Casual => Template("", " - Let's Chat About It!")
    case Professional => Template("Professional Insights: ", "")
    case Educational => Template("Mastering ", ": A Complete Guide")
    case Entertaining => Template("The Fun Side of ", "")
    case Storytelling => Template("The Untold Story of ", "")
    case Interview => Template("In Conversation About ", "")
    case News => Template("Breaking: Latest Updates on ", "")
    case Motivational => Template("Transform Your Life Through ", "")
  }

  function DescriptionTemplate(theme: Theme): Template {
    match theme
    case Casual => Template(
      "Hey there! Let's have a friendly chat about ",
      ". We'll dive deep into the topic and share some great insights that'll keep you engaged throughout the episode.")
    case Professional => Template(
      "This episode provides a comprehensive professional analysis of ",
      ". Our expert discussion covers key industry insights, best practices, and strategic implications for business leaders.")
    case Educational => Template(
      "Join us for an in-depth learning experience about ",
      ". This educational episode breaks down complex concepts into easy-to-understand segments, complete with practical examples and actionable takeaways.")
    case Entertaining => Template(
      "Get ready for an entertaining journey through ",
      "! We're bringing you the most engaging stories, surprising facts, and fun insights that'll keep you hooked from start to finish.")
    case Storytelling => Template(
      "Discover the compelling narrative behind ",
      ". This episode weaves together personal stories, dramatic moments, and powerful insights into an unforgettable listening experience.")
    case Interview => Template(
      "An engaging conversation exploring ",
      ". Through thoughtful questions and insightful answers, we uncover new perspectives and valuable wisdom from our featured guests.")
    case News => Template(
      "Stay informed with the latest developments regarding ",
      ". This news-focused episode provides factual analysis, current updates, and expert commentary on recent events.")
    case Motivational => Template(
      "Find inspiration and motivation through our exploration of ",
      ". This uplifting episode is designed to energize you with actionable strategies and positive insights for personal growth.")
  }

  /** The per-theme lead-in and closing of the `switch` in
      `enhanceMainContent`. */
  function BodyTemplate(theme: Theme): Template {
    match theme
    case Casual => Template(
      "Welcome back, friends! Today we're talking about something really interesting...\n\n",
      "\n\nThanks for hanging out with us today! Don't forget to share this with your friends if you found it helpful.")
    case Professional => Template(
      "Good day, and welcome to our professional insights series. Today's topic requires careful analysis...\n\n",
      "\n\nIn conclusion, these insights provide valuable strategic considerations for industry professionals.")
    case Educational => Template(
      "Welcome to today's learning session. By the end of this episode, you'll understand...\n\nKey Learning Points:\n",
      "\n\nRemember to practice these concepts and apply them in real-world scenarios.")
    case Entertaining => Template(
      "Get ready for some fun! You won't believe what we discovered about...\n\n",
      "\n\nWasn't that fascinating? Stay tuned for more entertaining insights next time!")
    case Storytelling => Template(
      "Once upon a time, in a world not so different from ours...\n\n",
      "\n\nAnd that's how our story concludes, leaving us with valuable lessons and new perspectives.")
    case Interview => Template(
      "Today we have an incredible conversation lined up for you...\n\nHost: Let's start with the basics...\nGuest: ",
      "\nHost: That's fascinating! Can you tell us more about...\n\nThank you for joining us for this insightful conversation.")
    case News => Template(
      "This is your news update. Here are the key facts you need to know...\n\n",
      "\n\nWe'll continue monitoring this story and bring you updates as they develop.")
    case Motivational => Template(
      "You have the power to change your life, and today's episode will show you how...\n\n",
      "\n\nRemember, every great journey begins with a single step. Take that step today!")
  }

  // ------------------------------------------------------------ enhancers

  /** `enhanceTitle`: the theme's title template around the title, or the
      title itself for a theme without one. */
  function EnhanceTitle(title: string, theme: string): string {
    match ThemeOf(theme)
    case None => title
    case Some(t) => Fill(TitleTemplate(t), title)
  }

  /** `enhanceDescription`: the theme's template around the lower-cased
      description, or the description itself for a theme without one. */
  function EnhanceDescription(description: string, theme: string): string {
    match ThemeOf(theme)
    case None => description
    case Some(t) => Fill(DescriptionTemplate(t), ToLower(description))
  }

  /** `themeConfig?.style || theme`: a theme's style, or the theme's own
      name when there is no such theme. */
  function StyleOrTheme(theme: string): string {
    match ThemeOf(theme)
    case None => theme
    case Some(t) => PromptOf(t).style
  }

  function EnhancementPrefix(theme: string): string {
    "[Enhanced for " + StyleOrTheme(theme) + " style]\n\n"
  }

  function EnhancementSuffix(theme: string): string {
    "\n\n[This content has been restructured and enhanced to align with the " + theme +
    " theme, incorporating appropriate tone, structure, and engagement elements while maintaining the original message and key information.]"
  }

  /** The `switch` of `enhanceMainContent` as a template: the theme's
      lead-in and closing, or nothing at all (`default`). */
  function BodyTemplateFor(theme: string): Template {
    match ThemeOf(theme)
    case None => Template("", "")
    case Some(t) => BodyTemplate(t)
  }

  function ThemedBody(content: string, theme: string): string {
    Fill(BodyTemplateFor(theme), content)
  }

  /** `enhanceMainContent`. */
  function EnhanceMainContent(content: string, theme: string): string {
    EnhancementPrefix(theme) + ThemedBody(content, theme) + EnhancementSuffix(theme)
  }

  /** `enhanceContentWithGemini` without its delay: an unknown theme throws;
      a known one enhances the three parts with it. */
  function EnhanceContentWithGemini(podcast: PodcastContent, theme: string): Result<PodcastContent, string> {
    if ThemeOf(theme).None? then Failure("Theme \"" + theme + "\" not supported")
    else Success(PodcastContent(
      EnhanceTitle(podcast.title, theme),
      EnhanceDescription(podcast.description, theme),
      EnhanceMainContent(podcast.content, theme)))
  }

  // ---------------------------------------------------------------- lemmas

  /** Enhancement succeeds exactly for the eight themes of the table; any
      other theme is refused with `Theme "<theme>" not supported`. */
  lemma EnhanceContentThemeCheck(podcast: PodcastContent, theme: string)
    ensures EnhanceContentWithGemini(podcast, theme).Success? <==> theme in ThemeKeys
    ensures theme !in ThemeKeys ==>
      EnhanceContentWithGemini(podcast, theme) == Failure("Theme \"" + theme + "\" not supported")
    ensures theme in ThemeKeys ==>
      EnhanceContentWithGemini(podcast, theme).value ==
        PodcastContent(EnhanceTitle(podcast.title, theme), EnhanceDescription(podcast.description, theme),
                       EnhanceMainContent(podcast.content, theme))
  {
    ThemeLookup(theme, Casual);
  }

  /** For a theme of the table, the enhanced title is the title inside that
      theme's template, and the title can be read back from it; for any
      other theme it is the title unchanged. */
  lemma EnhanceTitleWraps(title: string, theme: string)
    ensures ThemeOf(theme).None? ==> EnhanceTitle(title, theme) == title
    ensures ThemeOf(theme).Some? ==>
      var template := TitleTemplate(ThemeOf(theme).value);
      |EnhanceTitle(title, theme)| == |template.before| + |title| + |template.after| &&
      StartsWith(EnhanceTitle(title, theme), template.before) &&
      EndsWith(EnhanceTitle(title, theme), template.after) &&
      EnhanceTitle(title, theme)[|template.before|..|template.before| + |title|] == title
  {
    if ThemeOf(theme).Some? {
      FillRecoverable(TitleTemplate(ThemeOf(theme).value), title);
    }
  }

  /** Distinct titles stay distinct under any one theme. */
  lemma EnhanceTitleInjective(title1: string, title2: string, theme: string)
    requires EnhanceTitle(title1, theme) == EnhanceTitle(title2, theme)
    ensures title1 == title2
  {
    if ThemeOf(theme).Some? {
      FillInjective(TitleTemplate(ThemeOf(theme).value), title1, title2);
    }
  }

  /** For a theme of the table, the enhanced description holds the
      lower-cased description inside that theme's template, so it does not
      depend on the description's case; for any other theme it is the
      description unchanged. */
  lemma EnhanceDescriptionLowercases(description: string, theme: string)
    ensures ThemeOf(theme).None? ==> EnhanceDescription(description, theme) == description
    ensures ThemeOf(theme).Some? ==>
      var template := DescriptionTemplate(ThemeOf(theme).value);
      |EnhanceDescription(description, theme)| == |template.before| + |description| + |template.after| &&
      StartsWith(EnhanceDescription(description, theme), template.before) &&
      EndsWith(EnhanceDescription(description, theme), template.after) &&
      EnhanceDescription(description, theme)[|template.before|..|template.before| + |description|] == ToLower(description) &&
      EnhanceDescription(ToLower(description), theme) == EnhanceDescription(description, theme)
  {
    if ThemeOf(theme).Some? {
      var template := DescriptionTemplate(ThemeOf(theme).value);
      FillRecoverable(template, ToLower(description));
      ToLowerIdempotent(description);
    }
  }

  /** Where each part of `prefix + (before + hole + after) + suffix` sits. */
  lemma FramedParts(prefix: string, before: string, hole: string, after: string, suffix: string)
    ensures var r := prefix + (before + hole + after) + suffix;
      StartsWith(r, prefix) && EndsWith(r, suffix) &&
      r == Fill(Template(prefix + before, after + suffix), hole) &&
      (before == after == "" ==> r == prefix + hole + suffix)
  {
    var r := prefix + (before + hole + after) + suffix;
    assert r[..|prefix|] == prefix;
    assert r[|r| - |suffix|..] == suffix;
  }

  /** The whole of `enhanceMainContent` as one template: the prefix and
      the theme's lead-in before the content, the theme's closing and the
      suffix after it. */
  function MainTemplate(theme: string): Template {
    Template(EnhancementPrefix(theme) + BodyTemplateFor(theme).before,
             BodyTemplateFor(theme).after + EnhancementSuffix(theme))
  }

  /** The enhanced body always opens with `[Enhanced for <style or theme>
      style]` and a blank line and closes with the suffix naming the theme;
      it is the content inside a template that depends on the theme alone
      (so the content can be read back, by `FillRecoverable`), and for a
      theme without a case it is the content between prefix and suffix. */
  lemma EnhanceMainContentShape(content: string, theme: string)
    ensures StartsWith(EnhanceMainContent(content, theme), EnhancementPrefix(theme))
    ensures EndsWith(EnhanceMainContent(content, theme), EnhancementSuffix(theme))
    ensures EnhanceMainContent(content, theme) == Fill(MainTemplate(theme), content)
    ensures ThemeOf(theme).None? ==>
      EnhanceMainContent(content, theme) == EnhancementPrefix(theme) + content + EnhancementSuffix(theme)
  {
    var template := BodyTemplateFor(theme);
    FramedParts(EnhancementPrefix(theme), template.before, content, template.after, EnhancementSuffix(theme));
  }

  /** Distinct contents stay distinct under any one theme. */
  lemma EnhanceMainContentInjective(content1: string, content2: string, theme: string)
    requires EnhanceMainContent(content1, theme) == EnhanceMainContent(content2, theme)
    ensures content1 == content2
  {
    EnhanceMainContentShape(content1, theme);
    EnhanceMainContentShape(content2, theme);
    FillInjective(MainTemplate(theme), content1, content2);
  }
}
