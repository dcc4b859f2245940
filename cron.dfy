/** The cron trigger for the OCR job
    (webapp/src/app/api/cron/process-documents/route.ts). The environment's
    `CRON_SECRET`, the request's Authorization header, the clock's ISO
    timestamp and the way the job ended are parameters. */
module CronRoute {
  import opened Common

  /** How `processUnprocessedDocuments()` ended when it was run. */
  datatype JobEnd =
    | JobDone
    | JobThrewError(message: string)  // threw an `Error` instance
    | JobThrewOther                   // threw something that is not an `Error`

  datatype CronResponse =
    | CronUnauthorized                                   // 401 {"error": "Unauthorized"}
    | CronOk(success: bool, message: string, timestamp: string)
    | CronFailed(error: string, details: string)         // 500
  {
    function Status(): int {
      match this
      case CronUnauthorized => 401
      case CronOk(_, _, _) => 200
      case CronFailed(_, _) => 500
    }
  }

  /** The caller presents the secret as a bearer token, and a secret is set
      (an empty `CRON_SECRET` is falsy and counts as unset). */
  predicate Authorized(authHeader: Option<string>, cronSecret: Option<string>) {
    cronSecret.Some? && cronSecret.value != "" && authHeader == Some("Bearer " + cronSecret.value)
  }

  /** `GET`: refuse unless authorised; otherwise run the job and report how
      it ended. `job` is what the run would give; it is consulted only
      when the request is authorised. */
  function Get(authHeader: Option<string>, cronSecret: Option<string>, job: JobEnd, now: string): (r: CronResponse)
    ensures r.Status() == 401 <==> !Authorized(authHeader, cronSecret)
    ensures r.Status() == 200 <==> Authorized(authHeader, cronSecret) && job == JobDone
    ensures r.CronOk? ==> r.success && r.message == "Documents processed successfully" && r.timestamp == now
    ensures r.CronFailed? ==> r.error == "Failed to process documents"
    ensures r.CronFailed? && job.JobThrewError? ==> r.details == job.message
    ensures r.CronFailed? && job.JobThrewOther? ==> r.details == "Unknown error"
  {
    if !Authorized(authHeader, cronSecret) then CronUnauthorized
    else
      match job
      case JobDone => CronOk(true, "Documents processed successfully", now)
      case JobThrewError(m) => CronFailed("Failed to process documents", m)
      case JobThrewOther => CronFailed("Failed to process documents", "Unknown error")
  }

  /** `POST` hands the request to `GET` for manual triggers. */
  function Post(authHeader: Option<string>, cronSecret: Option<string>, job: JobEnd, now: string): (r: CronResponse)
    ensures r == Get(authHeader, cronSecret, job, now)
  {
    Get(authHeader, cronSecret, job, now)
  }

  /** With no secret configured the route is closed to everyone, whatever
      header is sent and however the job would end. */
  lemma UnsetSecretRefusesAll(authHeader: Option<string>, job: JobEnd, now: string)
    ensures Get(authHeader, None, job, now) == CronUnauthorized
    ensures Get(authHeader, Some(""), job, now) == CronUnauthorized
  {
  }

  /** The only header that opens the route is "Bearer " followed by the
      secret itself: the scheme is compared case-sensitively and nothing
      may surround the secret. */
  lemma {:induction false} OnlyExactBearerAccepted(header: string, secret: string)
    requires secret != ""
    ensures Authorized(Some(header), Some(secret)) <==>
      StartsWith(header, "Bearer ") && header[7..] == secret
  {
    if StartsWith(header, "Bearer ") && header[7..] == secret {
      assert header == header[..7] + header[7..];
    }
  }

  /** Any other spelling of the scheme ("bearer ", "BEARER ", "Token  ")
      is refused even with the right secret. */
  lemma {:induction false} OtherSchemeRefused(scheme: string, secret: string, job: JobEnd, now: string)
    requires |scheme| == 7 && scheme != "Bearer "
    ensures Get(Some(scheme + secret), Some(secret), job, now) == CronUnauthorized
  {
    assert (scheme + secret)[..7] == scheme;
  }
}
