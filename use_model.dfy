/**
 * The model picker's state (app/components/chat/use-model.ts): which model
 * a chat uses, and a local override that a model change sets and a failed
 * save clears. The `updateChatModel` callback is given as whether it was
 * supplied and what calling it produced.
 */
module UseModel {
  import opened Wrappers
  import ModelsIndex

  const FallbackModel := "gemini/gemini-2.0-flash-exp"

  /** A string-or-null value that is truthy: present and not empty. */
  predicate Given(s: Option<string>) {
    s.Some? && s.value != ""
  }

  /** `models?.[0]?.id`. */
  function FirstModelId(models: Option<seq<ModelsIndex.ModelConfig>>): Option<string> {
    if models.Some? && |models.value| > 0 then Some(models.value[0].id) else None
  }

  /** `getEffectiveModel`: the chat's model, else the first listed model, else the fallback. */
  function EffectiveModel(chatModel: Option<string>, models: Option<seq<ModelsIndex.ModelConfig>>): (r: string)
    ensures r != ""
    ensures Given(chatModel) ==> r == chatModel.value
    ensures !Given(chatModel) && Given(FirstModelId(models)) ==> r == models.value[0].id
    ensures !Given(chatModel) && !Given(FirstModelId(models)) ==> r == FallbackModel
  {
    if Given(chatModel) then chatModel.value
    else if Given(FirstModelId(models)) then FirstModelId(models).value
    else FallbackModel
  }

  /** `selectedModel`: the override when there is one, else the effective model; never empty. */
  function SelectedModel(localSelected: Option<string>, chatModel: Option<string>, models: Option<seq<ModelsIndex.ModelConfig>>): (r: string)
    ensures r != ""
    ensures Given(localSelected) ==> r == localSelected.value
    ensures !Given(localSelected) ==> r == EffectiveModel(chatModel, models)
  {
    var effective := EffectiveModel(chatModel, models);
    if Given(localSelected) then localSelected.value
    else if effective != "" then effective
    else FallbackModel
  }

  /** Without an override the chat's own non-empty model is shown, whatever the list holds. */
  lemma ChatModelShown(chatModel: string, models: Option<seq<ModelsIndex.ModelConfig>>)
    requires chatModel != ""
    ensures SelectedModel(None, Some(chatModel), models) == chatModel
  {
  }

  /** The hook's `localSelectedModel` state. */
  class ModelSelection {
    var localSelected: Option<string>

    constructor ()
      ensures localSelected.None?
    {
      localSelected := None;
    }

    function Selected(chatModel: Option<string>, models: Option<seq<ModelsIndex.ModelConfig>>): (r: string)
      reads this
      ensures r != ""
    {
      SelectedModel(localSelected, chatModel, models)
    }

    /**
     * `handleModelChange`. `hasUpdater` says whether `updateChatModel` was
     * supplied and `update` is what calling it produced; `called` is the
     * call made, if any.
     */
    method HandleModelChange(
      newModel: string, userId: Option<string>, chatId: Option<string>, hasUpdater: bool, update: Result<()>)
      returns (r: Result<()>, called: Option<(string, string)>)
      modifies this
      ensures called.Some? <==> Given(chatId) && hasUpdater && Given(userId)
      ensures called.Some? ==> called.value == (chatId.value, newModel)
      ensures r.Failure? <==> called.Some? && update.Failure?
      ensures r.Failure? ==> r.error == update.error && localSelected.None?
      ensures r.Success? ==> localSelected == Some(newModel)
    {
      localSelected := Some(newModel);
      called := None;
      r := Success(());
      if !Given(userId) && !Given(chatId) {
        return;
      }
      if Given(chatId) && hasUpdater && Given(userId) {
        called := Some((chatId.value, newModel));
        if update.Failure? {
          localSelected := None;
          r := Failure(update.error);
        }
      }
    }
  }

  /**
   * After a change that did not fail, a non-empty new model is what the
   * picker shows; after a failed save it shows the chat's effective model again.
   */
  lemma ChangeOutcomeShown(newModel: string, failed: bool, chatModel: Option<string>, models: Option<seq<ModelsIndex.ModelConfig>>)
    requires newModel != ""
    ensures !failed ==> SelectedModel(Some(newModel), chatModel, models) == newModel
    ensures failed ==> SelectedModel(None, chatModel, models) == EffectiveModel(chatModel, models)
  {
  }
}
