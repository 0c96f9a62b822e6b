/**
 * The usage gate (lib/usage.ts). Usage is counted by the backend, so every
 * check answers fixed values and every increment is a no-op; what remains is
 * the decision table over free and pro models and authenticated and
 * unauthenticated callers. The `lib/config` constants are a parameter.
 */
module Usage {
  import opened Wrappers

  /** `FREE_MODELS_IDS` and the three daily limits of `lib/config`. */
  datatype Config = Config(
    freeModelIds: seq<string>,
    authDailyMessageLimit: int,
    nonAuthDailyMessageLimit: int,
    dailyLimitProModels: int)

  datatype UserData = UserData(messageCount: int, dailyMessageCount: int, anonymous: bool, premium: bool)

  /** What the two checks answer: the daily-message record, or the pro-model record. */
  datatype UsageReport =
    | Daily(userData: UserData, dailyCount: int, dailyLimit: int)
    | ProUsage(dailyProCount: int, limit: int)

  /** Which counter an increment would update; every one of them is a no-op. */
  datatype Increment = Skipped | DailyIncrement | ProIncrement

  /** Message of the `UsageLimitError` thrown for an unauthenticated pro-model request. */
  const LoginRequired := "You must log in to use this model."

  predicate IsFreeModel(cfg: Config, modelId: string) {
    modelId in cfg.freeModelIds
  }

  predicate IsProModel(cfg: Config, modelId: string) {
    !IsFreeModel(cfg, modelId)
  }

  /** `checkUsage`: nothing used today, the authenticated daily limit, whoever asks. */
  function CheckUsage(cfg: Config, userId: string): (r: UsageReport)
    ensures r.Daily? && r.dailyCount == 0 && r.dailyLimit == cfg.authDailyMessageLimit
    ensures r.userData == UserData(0, 0, false, false)
  {
    Daily(UserData(0, 0, false, false), 0, cfg.authDailyMessageLimit)
  }

  /** `checkProUsage`: no pro messages used today, the pro-model limit. */
  function CheckProUsage(cfg: Config, userId: string): (r: UsageReport)
    ensures r.ProUsage? && r.dailyProCount == 0 && r.limit == cfg.dailyLimitProModels
  {
    ProUsage(0, cfg.dailyLimitProModels)
  }

  /** `checkUsageByModel`: pro models need a login and report the pro counter; free ones the daily counter. */
  function CheckUsageByModel(cfg: Config, userId: string, modelId: string, isAuthenticated: bool): (r: Result<UsageReport>)
    ensures r.Failure? <==> modelId !in cfg.freeModelIds && !isAuthenticated
    ensures r.Failure? ==> r.error == LoginRequired
    ensures r.Success? ==> (r.value.ProUsage? <==> modelId !in cfg.freeModelIds)
    ensures r.Success? && r.value.ProUsage? ==> r.value == ProUsage(0, cfg.dailyLimitProModels)
    ensures r.Success? && r.value.Daily? ==>
      r.value.dailyCount == 0 && r.value.dailyLimit == cfg.authDailyMessageLimit
  {
    if IsProModel(cfg, modelId) then
      if !isAuthenticated then Failure(LoginRequired) else Success(CheckProUsage(cfg, userId))
    else Success(CheckUsage(cfg, userId))
  }

  /** `incrementUsageByModel`: never fails; an unauthenticated pro-model request counts nothing. */
  function IncrementUsageByModel(cfg: Config, userId: string, modelId: string, isAuthenticated: bool): (r: Increment)
    ensures r.Skipped? <==> modelId !in cfg.freeModelIds && !isAuthenticated
    ensures r.ProIncrement? <==> modelId !in cfg.freeModelIds && isAuthenticated
    ensures r.DailyIncrement? <==> modelId in cfg.freeModelIds
  {
    if IsProModel(cfg, modelId) then
      if !isAuthenticated then Skipped else ProIncrement
    else DailyIncrement
  }

  /**
   * The increment touches the counter the check reported, and counts nothing
   * exactly when the check refuses.
   */
  lemma IncrementFollowsCheck(cfg: Config, userId: string, modelId: string, isAuthenticated: bool)
    ensures var check := CheckUsageByModel(cfg, userId, modelId, isAuthenticated);
      var inc := IncrementUsageByModel(cfg, userId, modelId, isAuthenticated);
      (check.Failure? <==> inc.Skipped?)
      && (check.Success? ==> (check.value.ProUsage? <==> inc.ProIncrement?))
  {
  }
}
