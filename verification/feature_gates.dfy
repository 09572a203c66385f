/** Feature gating on top of computed entitlements: the gate error and its
    HTTP form, the flag requirement, the storage quota evaluation, and the
    context facade that applies them to one entitlement payload.

    Gigabyte amounts are Python floats in the source; here they are exact
    reals, so the comparisons are the ideal ones without rounding.
 */
module FeatureGates {
  import opened Common
  import opened EntitlementModels

  /** A value in an error payload. */
  datatype DetailValue = DText(s: string) | DInt(i: int) | DReal(x: real) | DBool(b: bool)

  /** `status.HTTP_403_FORBIDDEN`, the default status of a gate error. */
  const Forbidden: int := 403

  /** A FastAPI HTTPException: a status and a JSON detail. */
  datatype HttpError = HttpError(statusCode: int, detail: map<string, DetailValue>)

  datatype FeatureGateError = FeatureGateError(
    code: string,
    message: string,
    statusCode: int,
    detail: Option<map<string, DetailValue>>)
  {
    /** The serialized error: `error` and `message`, overlaid with the
        detail, whose keys win on a clash. */
    function Payload(): (p: map<string, DetailValue>)
      ensures p.Keys == {"error", "message"} + (if detail.Some? then detail.value.Keys else {})
      ensures detail.Some? ==> forall k :: k in detail.value ==> p[k] == detail.value[k]
      ensures detail.None? || "error" !in detail.value ==> p["error"] == DText(code)
      ensures detail.None? || "message" !in detail.value ==> p["message"] == DText(message)
    {
      var base := map["error" := DText(code), "message" := DText(message)];
      if detail.Some? && detail.value != map[] then base + detail.value else base
    }

    /** `to_http_exception`: the error's status and its payload. */
    function ToHttpException(): (e: HttpError)
      ensures e.statusCode == statusCode
      ensures e.detail == Payload()
    {
      HttpError(statusCode, Payload())
    }
  }

  /** A gate error raised with the default status. */
  function NewFeatureGateError(code: string, message: string, detail: Option<map<string, DetailValue>>): (e: FeatureGateError)
    ensures e.statusCode == Forbidden && e.code == code && e.message == message && e.detail == detail
  {
    FeatureGateError(code, message, Forbidden, detail)
  }

  /** Without a detail the payload is exactly the code and the message, and
      the HTTP error is a 403 carrying it. */
  lemma {:induction false} PlainErrorPayload(code: string, message: string)
    ensures NewFeatureGateError(code, message, None).Payload()
            == map["error" := DText(code), "message" := DText(message)]
    ensures NewFeatureGateError(code, message, None).ToHttpException().statusCode == 403
  {
  }

  /** The outcome of a gated call: its value, or the gate error raised. */
  datatype Gated<T> = Allowed(value: T) | Denied(error: FeatureGateError)

  const EntitlementRequiredCode: string := "entitlement_required"
  const StorageQuotaExceededCode: string := "storage_quota_exceeded"

  /** The message used when the caller gives none. */
  function DefaultRequirementMessage(flag: string): string {
    "Entitlement '" + flag + "' is required."
  }

  /** Python `bool(flags.get(flag))`. */
  predicate FlagEnabled(flags: map<string, FlagValue>, flag: string) {
    flag in flags && FlagTruthy(flags[flag])
  }

  /** `require_entitlement`: passes exactly when the flag is present and
      truthy (a missing flag, False and 0 all fail); otherwise a 403 gate
      error with the given code, the given message when it is non-empty
      and the default message otherwise, and the missing flag in the
      detail. */
  function RequireEntitlement(flags: map<string, FlagValue>, flag: string, errorCode: string, message: Option<string>)
    : (r: Gated<()>)
    ensures r.Allowed? <==> flag in flags && FlagTruthy(flags[flag])
    ensures r.Denied? ==>
              r.error.code == errorCode && r.error.statusCode == Forbidden
              && r.error.message == (if Truthy(message) then message.value else DefaultRequirementMessage(flag))
              && r.error.detail == Some(map["missing_entitlement" := DText(flag)])
    ensures r.Denied? ==> r.error.Payload()["missing_entitlement"] == DText(flag)
  {
    if FlagEnabled(flags, flag) then Allowed(())
    else
      var failureMessage := if Truthy(message) then message.value else DefaultRequirementMessage(flag);
      Denied(NewFeatureGateError(errorCode, failureMessage, Some(map["missing_entitlement" := DText(flag)])))
  }

  // ---------------------------------------------------------------------
  // Storage quota

  /** `_DEFAULT_BLOCK_THRESHOLD`: uploads are blocked beyond 110% of the
      quota. */
  const DefaultBlockThreshold: real := 1.1

  datatype StorageQuotaEvaluation = StorageQuotaEvaluation(
    quotaGb: int,
    currentUsageGb: real,
    pendingUploadGb: real,
    projectedUsageGb: real,
    threshold: real,
    shouldWarn: bool,
    allowed: bool)
  {
    /** `to_dict`: the seven fields under their Python names. */
    function ToDict(): (d: map<string, DetailValue>)
      ensures d.Keys == {"quota_gb", "current_usage_gb", "pending_upload_gb", "projected_usage_gb",
                         "threshold", "should_warn", "allowed"}
      ensures d["quota_gb"] == DInt(quotaGb) && d["allowed"] == DBool(allowed)
      ensures d["should_warn"] == DBool(shouldWarn) && d["projected_usage_gb"] == DReal(projectedUsageGb)
      ensures d["current_usage_gb"] == DReal(currentUsageGb) && d["pending_upload_gb"] == DReal(pendingUploadGb)
              && d["threshold"] == DReal(threshold)
    {
      map["quota_gb" := DInt(quotaGb), "current_usage_gb" := DReal(currentUsageGb),
          "pending_upload_gb" := DReal(pendingUploadGb), "projected_usage_gb" := DReal(projectedUsageGb),
          "threshold" := DReal(threshold), "should_warn" := DBool(shouldWarn), "allowed" := DBool(allowed)]
    }
  }

  function MaxZero(x: real): (m: real)
    ensures m >= 0.0 && m >= x && (m == x || m == 0.0)
  {
    if x > 0.0 then x else 0.0
  }

  /** `evaluate_storage_quota`: a negative pending upload counts as none;
      the evaluation warns once the projected usage reaches the quota and
      allows it up to the quota times the threshold. */
  function EvaluateStorageQuota(usageGb: real, quotaGb: int, pendingUploadGb: real, threshold: real)
    : (e: StorageQuotaEvaluation)
    ensures e.pendingUploadGb >= 0.0
    ensures e.pendingUploadGb == (if pendingUploadGb < 0.0 then 0.0 else pendingUploadGb)
    ensures e.projectedUsageGb == usageGb + e.pendingUploadGb
    ensures e.shouldWarn <==> e.projectedUsageGb >= quotaGb as real
    ensures e.allowed <==> e.projectedUsageGb <= quotaGb as real * threshold
    ensures e.quotaGb == quotaGb && e.currentUsageGb == usageGb && e.threshold == threshold
  {
    var pending := MaxZero(pendingUploadGb);
    var projected := usageGb + pending;
    var warnThreshold := quotaGb as real;
    var blockThreshold := quotaGb as real * threshold;
    StorageQuotaEvaluation(quotaGb, usageGb, pending, projected, threshold,
                           projected >= warnThreshold, projected <= blockThreshold)
  }

  /** With a threshold of at least one there is a band that warns but is
      still allowed, it contains the quota itself, and every refusal has
      been warned about. */
  lemma {:induction false} WarnBeforeBlock(usageGb: real, quotaGb: int, pendingUploadGb: real, threshold: real)
    requires quotaGb >= 0 && threshold >= 1.0
    ensures var e := EvaluateStorageQuota(quotaGb as real, quotaGb, 0.0, threshold);
            e.shouldWarn && e.allowed
    ensures !EvaluateStorageQuota(usageGb, quotaGb, pendingUploadGb, threshold).allowed
            ==> EvaluateStorageQuota(usageGb, quotaGb, pendingUploadGb, threshold).shouldWarn
  {
    assert quotaGb as real <= quotaGb as real * threshold by {
      assert quotaGb as real * threshold == quotaGb as real + quotaGb as real * (threshold - 1.0);
    }
  }

  /** Using less storage, or uploading less, never turns an allowed upload
      into a refused one. */
  lemma {:induction false} AllowedIsMonotone(usageGb: real, pendingUploadGb: real, lessUsageGb: real, lessPendingGb: real,
                          quotaGb: int, threshold: real)
    requires lessUsageGb <= usageGb && lessPendingGb <= pendingUploadGb
    requires EvaluateStorageQuota(usageGb, quotaGb, pendingUploadGb, threshold).allowed
    ensures EvaluateStorageQuota(lessUsageGb, quotaGb, lessPendingGb, threshold).allowed
  {
  }

  /** `assert_quota`: the evaluation when it allows the upload; otherwise a
      403 gate error with the given code, carrying the quota, the projected
      usage, the clamped pending upload and the threshold. */
  function AssertQuota(usageGb: real, quotaGb: int, pendingUploadGb: real, threshold: real, errorCode: string)
    : (r: Gated<StorageQuotaEvaluation>)
    ensures r.Allowed? <==> EvaluateStorageQuota(usageGb, quotaGb, pendingUploadGb, threshold).allowed
    ensures r.Allowed? ==> r.value == EvaluateStorageQuota(usageGb, quotaGb, pendingUploadGb, threshold)
    ensures r.Denied? ==>
              var e := EvaluateStorageQuota(usageGb, quotaGb, pendingUploadGb, threshold);
              r.error.code == errorCode && r.error.statusCode == Forbidden
              && r.error.message == "Storage quota exceeded."
              && r.error.detail.Some?
              && r.error.detail.value.Keys == {"quota_gb", "usage_gb", "pending_upload_gb", "threshold"}
              && r.error.detail.value["quota_gb"] == DInt(quotaGb)
              && r.error.detail.value["usage_gb"] == DReal(e.projectedUsageGb)
              && r.error.detail.value["pending_upload_gb"] == DReal(e.pendingUploadGb)
              && r.error.detail.value["threshold"] == DReal(threshold)
  {
    var evaluation := EvaluateStorageQuota(usageGb, quotaGb, pendingUploadGb, threshold);
    if !evaluation.allowed then
      Denied(NewFeatureGateError(errorCode, "Storage quota exceeded.",
                                 Some(map["quota_gb" := DInt(quotaGb),
                                          "usage_gb" := DReal(evaluation.projectedUsageGb),
                                          "pending_upload_gb" := DReal(MaxZero(pendingUploadGb)),
                                          "threshold" := DReal(threshold)])))
    else Allowed(evaluation)
  }

  // ---------------------------------------------------------------------
  // Context facade

  /** The gating view of one subject's entitlements. */
  datatype EntitlementContext = EntitlementContext(payload: EntitlementPayload)
  {
    /** `feature_flags`: a copy of the payload's flags. */
    function FeatureFlags(): (flags: map<string, FlagValue>)
      ensures flags.Keys == payload.featureFlags.Keys
      ensures forall k :: k in flags ==> flags[k] == payload.featureFlags[k]
    {
      map k | k in payload.featureFlags :: payload.featureFlags[k]
    }

    /** `has`: the flag is present and truthy. */
    predicate Has(flag: string) {
      FlagEnabled(payload.featureFlags, flag)
    }

    /** `require`: `require_entitlement` on the payload's flags with the
        default message; it raises exactly when `has` is false. */
    function Require(flag: string, errorCode: string): (r: Gated<()>)
      ensures r.Allowed? <==> Has(flag)
      ensures r.Denied? ==> r.error.code == errorCode
                            && r.error.message == DefaultRequirementMessage(flag)
    {
      RequireEntitlement(payload.featureFlags, flag, errorCode, None)
    }

    /** `evaluate_storage_quota` against the payload's storage quota; no
        threshold means the default one. */
    function EvaluateQuota(usageGb: real, pendingUploadGb: real, threshold: Option<real>): (e: StorageQuotaEvaluation)
      ensures e.quotaGb == payload.StorageQuotaGb()
      ensures e.threshold == threshold.GetOr(DefaultBlockThreshold)
      ensures e == EvaluateStorageQuota(usageGb, payload.StorageQuotaGb(), pendingUploadGb,
                                        threshold.GetOr(DefaultBlockThreshold))
    {
      EvaluateStorageQuota(usageGb, payload.StorageQuotaGb(), pendingUploadGb, threshold.GetOr(DefaultBlockThreshold))
    }

    /** `assert_storage_quota` against the payload's storage quota; no
        threshold means the default one. */
    function AssertQuotaFor(usageGb: real, pendingUploadGb: real, threshold: Option<real>, errorCode: string)
      : (r: Gated<StorageQuotaEvaluation>)
      ensures r.Allowed? <==> EvaluateQuota(usageGb, pendingUploadGb, threshold).allowed
      ensures r.Allowed? ==> r.value == EvaluateQuota(usageGb, pendingUploadGb, threshold)
      ensures r.Denied? ==> r.error.code == errorCode && r.error.detail.Some? && "quota_gb" in r.error.detail.value
                            && r.error.detail.value["quota_gb"] == DInt(payload.StorageQuotaGb())
    {
      AssertQuota(usageGb, payload.StorageQuotaGb(), pendingUploadGb, threshold.GetOr(DefaultBlockThreshold), errorCode)
    }
  }

  /** On a 100 GB quota with the default threshold, 95 GB used plus 10 GB
      pending warns but is allowed, and 105 GB used plus 10 GB pending is
      refused with the quota in the error. */
  lemma {:induction false} DefaultThresholdExamples(ctx: EntitlementContext)
    requires StorageQuotaKey in ctx.payload.featureFlags
    requires ctx.payload.featureFlags[StorageQuotaKey] == IntFlag(100)
    ensures ctx.EvaluateQuota(95.0, 10.0, None).shouldWarn && ctx.EvaluateQuota(95.0, 10.0, None).allowed
    ensures ctx.AssertQuotaFor(105.0, 10.0, None, StorageQuotaExceededCode).Denied?
    ensures ctx.AssertQuotaFor(105.0, 10.0, None, StorageQuotaExceededCode).error.Payload()["quota_gb"] == DInt(100)
  {
  }
}
