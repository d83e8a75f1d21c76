/** The system prompt builder of src/utils/helper.ts (`createSystemPrompt`). */
module SystemPrompt {
  import opened Wrappers
  import BotDetail
  import Strings

  datatype Detail = Detail(name: string, description: string)

  /** An intent of a bot's schema; an intent without `details` has the empty list. */
  datatype Intent = Intent(name: string, description: string, details: seq<Detail>)

  const PromptHeader := "I have the following intentions predefined:\n"

  const IntroPrefix := "\n\n    Here is your introduction: **"

  /** The fixed instructions that follow the bot's introduction. */
  const PolicyText :=
      "**\n\n"
      + "    First, based on the conversation history and the user's latest input, return a JSON that identifies the correct intention and details by their description.\n\n"
      + "    IMPORTANT: You must:\n"
      + "    1. Identify the intention with utmost accuracy and avoid any assumptions.\n"
      + "    2. Only select the intention if it fully matches the input and context. If there is uncertainty, return \"\" as the intention.\n"
      + "    3. Extract the required details for the identified intention. If any detail is not present or unclear, mark it as \"\".\n"
      + "    4. Ensure that you do not guess or infer information that is not explicitly provided.\n"
      + "    5. Ensure that when identifying the intentions and their details, you must take the description into account instead of just the name.\n"
      + "    6. If any details If any details of the intent are not determined, generate a follow-up question to ask for clarification and return it as 'response'. Otherwise, return the intention JSON and fill in all details.\n"
      + "    7. Return either the \"response\" or the \"intention\".\n"
      + "    8. When you are answering the question, do not use markdown format such as ** or ##. Try to use new line to separate different points.\n\n"
      + "    If an intention is detected and all details are clear, return the response in this format:\n"
      + "    {\n"
      + "        \"intention\": {\n"
      + "            \"name\": \"xxx\",\n"
      + "            \"details\": { ... }\n"
      + "        },\n"
      + "    }\n\n"
      + "    If no intention is detected or an intention is detected but the detail is not clear, answer the question or generate a follow-up question using the bot's introduction and personality, and return:\n"
      + "    {\n"
      + "        \"response\": \"xxx\"\n"
      + "    }\n"
      + "    "

  /** The line an intent contributes. */
  function IntentLine(intent: Intent): string
  {
    "- \"" + intent.name + "\": " + intent.description + "\n"
  }

  /** The indented line a detail contributes. */
  function DetailLine(detail: Detail): string
  {
    "  - \"" + detail.name + "\": " + detail.description + "\n"
  }

  function DetailLines(details: seq<Detail>): string
  {
    if details == [] then "" else DetailLines(details[..|details| - 1]) + DetailLine(details[|details| - 1])
  }

  /** An intent's line immediately followed by its detail lines. */
  function IntentBlock(intent: Intent): string
  {
    IntentLine(intent) + DetailLines(intent.details)
  }

  function IntentList(intents: seq<Intent>): string
  {
    if intents == [] then "" else IntentList(intents[..|intents| - 1]) + IntentBlock(intents[|intents| - 1])
  }

  /** The intent list of a concatenation is the concatenation of the intent lists. */
  lemma {:induction false} IntentListAppend(xs: seq<Intent>, ys: seq<Intent>)
    ensures IntentList(xs + ys) == IntentList(xs) + IntentList(ys)
  {
    if ys == [] {
      assert xs + ys == xs;
    } else {
      var init, last := ys[..|ys| - 1], ys[|ys| - 1];
      assert (xs + ys)[..|xs + ys| - 1] == xs + init;
      assert IntentList(xs + ys) == IntentList(xs + init) + IntentBlock(last);
      IntentListAppend(xs, init);
      assert IntentList(ys) == IntentList(init) + IntentBlock(last);
    }
  }

  /** The intents appear in order, each as its own block: the list splits around intent `k`. */
  lemma IntentListAt(intents: seq<Intent>, k: nat)
    requires k < |intents|
    ensures IntentList(intents) == IntentList(intents[..k]) + IntentBlock(intents[k]) + IntentList(intents[k + 1..])
  {
    var before, here, after := intents[..k], [intents[k]], intents[k + 1..];
    assert intents == before + here + after;
    IntentListAppend(before + here, after);
    IntentListAppend(before, here);
    assert here[..0] == [];
  }

  /** The text after the intent list: the bot's introduction in bold, then the fixed instructions. */
  function Closing(intro: string): string
  {
    IntroPrefix + intro + PolicyText
  }

  /** The whole prompt for a bot introduction. */
  function SystemPrompt(intents: seq<Intent>, intro: string): string
  {
    PromptHeader + IntentList(intents) + Closing(intro)
  }

  const NoBotError := "Cannot read properties of undefined (reading 'BOT_INTRO')"

  /**
   * `createSystemPrompt`: appends each intent's line and its details' lines to the header, then the
   * introduction of `getBotConfig(botId)` and the fixed instructions. Fails only when the bot list is empty.
   */
  method CreateSystemPrompt(intents: seq<Intent>, bots: seq<BotDetail.Bot>, botId: string) returns (r: Result<string, string>)
    ensures |bots| == 0 ==> r == Failure(NoBotError)
    ensures |bots| > 0 ==> r == Success(SystemPrompt(intents, BotDetail.GetBotConfig(bots, botId).value.intro))
  {
    var prompt := ListIntents(intents);
    var bot := BotDetail.GetBotConfig(bots, botId);
    if bot.None? {
      return Failure(NoBotError);
    }
    return Success(prompt + Closing(bot.value.intro));
  }

  /** The loop of `createSystemPrompt` that appends one line per intent, each followed by its details' lines. */
  method ListIntents(intents: seq<Intent>) returns (prompt: string)
    ensures prompt == PromptHeader + IntentList(intents)
  {
    prompt := PromptHeader;
    for k := 0 to |intents|
      invariant prompt == PromptHeader + IntentList(intents[..k])
    {
      prompt := AppendDetails(prompt + IntentLine(intents[k]), intents[k].details);
      BlockAppended(PromptHeader, intents, k);
    }
    assert intents[..|intents|] == intents;
  }

  /** One turn of the loop of `ListIntents`: the line and the detail lines of intent `k` extend the list. */
  lemma BlockAppended(before: string, intents: seq<Intent>, k: nat)
    requires k < |intents|
    ensures before + IntentList(intents[..k]) + IntentLine(intents[k]) + DetailLines(intents[k].details)
            == before + IntentList(intents[..k + 1])
  {
    assert intents[..k + 1][..k] == intents[..k];
  }

  /** The inner loop of `createSystemPrompt`: one line per detail of an intent. */
  method AppendDetails(start: string, details: seq<Detail>) returns (prompt: string)
    ensures prompt == start + DetailLines(details)
  {
    prompt := start;
    for l := 0 to |details|
      invariant prompt == start + DetailLines(details[..l])
    {
      assert details[..l + 1][..l] == details[..l];
      prompt := prompt + DetailLine(details[l]);
    }
    assert details[..|details|] == details;
  }

  /** Every intent's block (its line followed by its detail lines) occurs in the prompt. */
  lemma SystemPromptListsIntents(intents: seq<Intent>, intro: string, k: nat)
    requires k < |intents|
    ensures Strings.IsInfix(IntentBlock(intents[k]), SystemPrompt(intents, intro))
  {
    IntentListAt(intents, k);
    var block := IntentBlock(intents[k]);
    var before, after := IntentList(intents[..k]), IntentList(intents[k + 1..]);
    assert Strings.OccursAt(block, block, 0);
    Strings.InfixExtend(block, block, before, after);
    Strings.InfixExtend(block, IntentList(intents), PromptHeader, Closing(intro));
  }
}
