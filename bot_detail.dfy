/** Bot lookup with fallback (src/utils/botDetail.ts). */
module BotDetail {
  import opened Wrappers
  import Seqs

  /** One entry of the configured bot list. */
  datatype Bot = Bot(id: string, intro: string, ipfsInitLink: string, gitbookInitLink: string, schemaPath: string)

  /** Index of the first bot whose ID is `botId`. */
  function FindBot(bots: seq<Bot>, botId: string): Option<nat>
  {
    Seqs.FindIndex(bots, (b: Bot) => b.id == botId)
  }

  /**
   * `getBotConfig(botId)`: the first bot with that ID when `botId` is non-empty and matches,
   * otherwise `BOT[0]`. `None` stands for the `undefined` that `BOT[0]` is when the list is empty.
   */
  function GetBotConfig(bots: seq<Bot>, botId: string): (r: Option<Bot>)
    ensures r.Some? <==> |bots| > 0
    ensures r.Some? ==> r.value in bots
    ensures botId != "" && r.Some? && r.value.id == botId ==>
              exists k :: 0 <= k < |bots| && r.value == bots[k] && forall j :: 0 <= j < k ==> bots[j].id != botId
    ensures (botId == "" || forall k :: 0 <= k < |bots| ==> bots[k].id != botId) && |bots| > 0 ==> r == Some(bots[0])
  {
    if botId != "" && FindBot(bots, botId).Some? then Some(bots[FindBot(bots, botId).value])
    else if |bots| > 0 then Some(bots[0])
    else None
  }

  /** A non-empty matching ID selects the first bot carrying it. */
  lemma GetBotConfigFindsFirst(bots: seq<Bot>, botId: string, k: nat)
    requires botId != "" && k < |bots| && bots[k].id == botId
    requires forall j :: 0 <= j < k ==> bots[j].id != botId
    ensures GetBotConfig(bots, botId) == Some(bots[k])
  {
    assert FindBot(bots, botId).Some?;
  }

  /** The returned bot carries `botId` exactly when some bot does (and `botId` is given), or `BOT[0]` happens to. */
  lemma GetBotConfigIdMatches(bots: seq<Bot>, botId: string)
    requires |bots| > 0
    ensures GetBotConfig(bots, botId).value.id == botId <==>
              (botId != "" && exists k :: 0 <= k < |bots| && bots[k].id == botId) || bots[0].id == botId
  {
    var f := FindBot(bots, botId);
    if botId != "" && (exists k :: 0 <= k < |bots| && bots[k].id == botId) {
      assert f.Some?;
    }
  }
}
