/** The error classifiers of internal/upstream/client.go. */
module ErrorClasses {
  /** An upstream error body. `lower` stands for strings.ToLower(raw), whatever that is: no claim depends on it. */
  datatype Body = Body(raw: string, lower: string)

  predicate Contains(s: string, part: string) {
    exists i | 0 <= i <= |s| :: part <= s[i..]
  }

  predicate QuotaSignal(status: int, body: Body) {
    && status == 429
    && (Contains(body.lower, "\"quota_exceeded\"") || Contains(body.lower, "\"insufficient_quota\"")
        || Contains(body.lower, "额度用完") || Contains(body.lower, "quota exhausted"))
  }

  predicate RequestScopedError(status: int, body: Body) {
    && status == 400
    && !QuotaSignal(status, body)
    && !(Contains(body.lower, "quota_exceeded") || Contains(body.lower, "insufficient_quota")
         || Contains(body.lower, "quota exhausted") || Contains(body.lower, "余额不足"))
  }

  predicate CredentialScopedError(status: int, body: Body) {
    status == 401 || status == 402 || status == 429
  }

  predicate DeviceCredentialRetired(status: int) {
    status == 401
  }

  predicate DeviceNotTrusted(status: int, body: Body) {
    status == 403
  }

  predicate KeyClientOnlyRejected(status: int, body: Body) {
    && status == 403
    && (Contains(body.lower, "u1s1_client_only") || Contains(body.lower, "仅支持 u1s1 客户端")
        || Contains(body.lower, "仅限 u1s1 客户端") || Contains(body.lower, "只支持 u1s1 客户端"))
  }

  predicate IntegrityReviewRelogin(status: int, body: Body) {
    && status == 403
    && !KeyClientOnlyRejected(status, body)
    && (Contains(body.lower, "client_integrity_review") || Contains(body.lower, "account_restricted")
        || Contains(body.raw, "继续使用非 u1s1 客户端") || Contains(body.raw, "本次请求已暂停")
        || Contains(body.raw, "请升级并重新登录 u1s1"))
  }

  /** What the device scheduler does about an upstream error, in the order it asks. */
  datatype Verdict =
    | Relogin          // 403, integrity review: stop, account needs a new login
    | Banned           // any other 403: stop, account disabled
    | Retired          // 401: account needs a new authorization, try the next
    | RequestFault     // 400 about the request itself: stop
    | GatewayFault     // anything not about the credential: stop
    | Exhausted        // 429 with a quota signal: cool the account down, try the next
    | Refused          // 402 or another 429: try the next

  function Judge(status: int, body: Body): (v: Verdict) {
    if DeviceNotTrusted(status, body) then (if IntegrityReviewRelogin(status, body) then Relogin else Banned)
    else if DeviceCredentialRetired(status) then Retired
    else if RequestScopedError(status, body) then RequestFault
    else if !CredentialScopedError(status, body) then GatewayFault
    else if QuotaSignal(status, body) then Exhausted
    else Refused
  }

  predicate Rotates(v: Verdict) {
    v.Retired? || v.Exhausted? || v.Refused?
  }

  /** Whether the scheduler goes on to the next account depends on the status alone. In particular the exemption of
      quota-like 400 bodies in RequestScopedError never makes it rotate. */
  lemma RotationReadsStatusOnly(status: int, body: Body)
    ensures Rotates(Judge(status, body)) <==> status == 401 || status == 402 || status == 429
    ensures Judge(status, body).Relogin? || Judge(status, body).Banned? <==> status == 403
    ensures Judge(status, body).Exhausted? <==> QuotaSignal(status, body)
    ensures status == 400 ==> !Rotates(Judge(status, body))
  {
  }
}
