/** What the model is sent: the repaired and trimmed history, behind the system prompt and the turn's untrusted blocks. */
module Request {
  import opened Common
  import opened Messages
  import opened Context
  import Repair

  const REASON := "the tool did not return a result in an earlier turn"

  /** blocks says whether the untrusted blocks are part of it. */
  datatype ModelInput = ModelInput(blocks: bool, messages: seq<Message>, overBudget: bool)

  /** The tokens besides the history: the prompt and the tool schemas, and the blocks where they are sent. */
  function Fixed(bare: int, blocks: Option<nat>, withBlocks: bool): int {
    bare + if withBlocks && blocks.Some? then blocks.value else 0
  }

  /**
   blocks is what the untrusted blocks cost, if there are any. They are the one
   optional part: left out exactly when the request does not fit with them and
   does without. The request breaks the cap exactly when it must. What is sent is
   the repaired history, trimmed by the rules; all of it when everything fits.
   */
  method Build(cost: CostOfMessage, stored: seq<Message>, max: Option<int>, bare: int, blocks: Option<nat>)
    returns (input: ModelInput, ghost trim: ContextTrim)
    ensures Answered(input.messages) && (Paired(stored) ==> Paired(input.messages))
    ensures max.None? ==> input == ModelInput(blocks.Some?, Repair.Closed(stored, REASON), false)
    ensures max.Some? ==>
      && IsTrim(cost, Repair.Closed(stored, REASON), max.value, Fixed(bare, blocks, input.blocks), trim)
      && input.messages == trim.messages && input.overBudget == trim.overBudget
    ensures max.Some? && Fixed(bare, blocks, true) + EstimateTokens(cost, Repair.Closed(stored, REASON)) <= max.value ==>
      input == ModelInput(blocks.Some?, Repair.Closed(stored, REASON), false)
    ensures max.Some? ==>
      var least := LeastTokens(cost, Repair.Closed(stored, REASON));
      && (input.overBudget <==> bare + least > max.value)
      && (input.blocks <==> blocks.Some? && !(bare + least <= max.value < bare + blocks.value + least))
      && (input.overBudget <==> Fixed(bare, blocks, input.blocks) + EstimateTokens(cost, input.messages) > max.value)
  {
    hide IsTrim, LeastTokens, Answered, Paired;
    var history := Repair.CloseUnansweredToolCalls(stored, REASON);
    if max.None? {
      Repair.RepairAnswers(stored, REASON);
      if Paired(stored) {
        Repair.RepairKeepsPairing(stored, REASON);
      }
      return ModelInput(blocks.Some?, history, false), ContextTrim(history, 0, 0, 0, false);
    }
    var withBlocks, trimmed := Fit(cost, history, max.value, bare, blocks);
    RepairThenTrimIsValid(cost, stored, REASON, max.value, Fixed(bare, blocks, withBlocks), trimmed);
    input, trim := ModelInput(withBlocks, trimmed.messages, trimmed.overBudget), trimmed;
  }

  lemma TrimFigures(cost: CostOfMessage, history: seq<Message>, max: int, fixed: int, trim: ContextTrim)
    requires IsTrim(cost, history, max, fixed, trim)
    ensures trim.overBudget <==> fixed + EstimateTokens(cost, trim.messages) > max
    ensures fixed + EstimateTokens(cost, history) <= max ==> trim.messages == history && !trim.overBudget
  {
  }

  /** Trims the history beside the untrusted blocks, or without them where only that fits. */
  method Fit(cost: CostOfMessage, history: seq<Message>, max: int, bare: int, blocks: Option<nat>)
    returns (withBlocks: bool, trim: ContextTrim)
    ensures IsTrim(cost, history, max, Fixed(bare, blocks, withBlocks), trim)
    ensures Fixed(bare, blocks, true) + EstimateTokens(cost, history) <= max ==>
      withBlocks == blocks.Some? && trim.messages == history && !trim.overBudget
    ensures
      var least := LeastTokens(cost, history);
      && (trim.overBudget <==> bare + least > max)
      && (withBlocks <==> blocks.Some? && !(bare + least <= max < bare + blocks.value + least))
      && (trim.overBudget <==> Fixed(bare, blocks, withBlocks) + EstimateTokens(cost, trim.messages) > max)
  {
    hide IsTrim, LeastTokens;
    withBlocks := blocks.Some?;
    var fixed := bare + if blocks.Some? then blocks.value else 0;
    trim := TrimHistory(cost, history, max, fixed);
    OverBudgetExact(cost, history, max, fixed, trim);
    TrimFigures(cost, history, max, fixed, trim);
    if blocks.Some? && trim.overBudget {
      var bareTrim := TrimHistory(cost, history, max, bare);
      OverBudgetExact(cost, history, max, bare, bareTrim);
      TrimFigures(cost, history, max, bare, bareTrim);
      if !bareTrim.overBudget {
        withBlocks, trim := false, bareTrim;
      }
    }
  }
}
