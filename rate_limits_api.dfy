/** `getMessageUsage` (app/api/rate-limits/api.ts): the limits a user is shown. */
module RateLimitsApi {
  import Usage

  datatype MessageUsage = MessageUsage(
    dailyCount: int,
    dailyProCount: int,
    dailyLimit: int,
    remaining: int,
    remainingPro: int)

  function GetMessageUsage(cfg: Usage.Config, userId: string, isAuthenticated: bool): (r: MessageUsage)
    ensures r.dailyLimit == if isAuthenticated then cfg.authDailyMessageLimit else cfg.nonAuthDailyMessageLimit
    ensures r.remaining == r.dailyLimit
    ensures r.dailyCount == 0 && r.dailyProCount == 0
    ensures r.remainingPro == cfg.dailyLimitProModels
  {
    var dailyLimit := if isAuthenticated then cfg.authDailyMessageLimit else cfg.nonAuthDailyMessageLimit;
    MessageUsage(0, 0, dailyLimit, dailyLimit, cfg.dailyLimitProModels)
  }

  /**
   * An authenticated user is shown the same daily limit and pro limit that
   * the usage gate reports.
   */
  lemma AgreesWithUsageGate(cfg: Usage.Config, userId: string, modelId: string)
    ensures var shown := GetMessageUsage(cfg, userId, true);
      var check := Usage.CheckUsageByModel(cfg, userId, modelId, true);
      check.Success?
      && (check.value.Daily? ==> check.value.dailyLimit == shown.dailyLimit && check.value.dailyCount == shown.dailyCount)
      && (check.value.ProUsage? ==> check.value.limit == shown.remainingPro && check.value.dailyProCount == shown.dailyProCount)
  {
  }
}
