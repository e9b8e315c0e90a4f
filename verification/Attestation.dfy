/**
 * The capture attestation protocol: a factory mints attestations into identity-keyed
 * registries, the evidence builder consumes them, and a validator judges the result.
 */
module Attestation {
  import opened Wrappers

  /** What a capture request binds: root and output path are resolved paths. */
  datatype Request = Request(root: string, route: Option<string>, missionId: Option<string>, outputPath: string)

  datatype ExecutionClass = Real | MockFixture | Untrusted | Missing

  datatype Status =
    | Available | CodexAppMissing | PermissionMissing | CapabilityMissing | ExternalBlocked | NotMacos | Unknown

  datatype Mode = ProbeOnly | LiveCaptureAttempted | LiveCaptureSuccess | LiveCaptureBlocked

  datatype CaptureStatus = NotAttempted | Captured | Blocked | Failed

  /** A frozen attestation object. */
  class CaptureAttestation {
    const id: string
    const issuedAt: string
    const requestBinding: string

    constructor (id: string, issuedAt: string, requestBinding: string)
      ensures this.id == id && this.issuedAt == issuedAt && this.requestBinding == requestBinding
    {
      this.id, this.issuedAt, this.requestBinding := id, issuedAt, requestBinding;
    }
  }

  /** A capture result. It is an ordinary object: whoever holds it may change its fields. */
  class CaptureResult {
    var ok: bool
    var attestation: CaptureAttestation?
    var redacted: bool

    constructor (ok: bool, attestation: CaptureAttestation?, redacted: bool)
      ensures this.ok == ok && this.attestation == attestation && this.redacted == redacted
    {
      this.ok, this.attestation, this.redacted := ok, attestation, redacted;
    }
  }

  /** A screenshot adapter. What its capture function does is not fixed by its identity. */
  class Adapter {
    var claimedClass: Option<ExecutionClass>

    constructor (claimedClass: Option<ExecutionClass>)
      ensures this.claimedClass == claimedClass
    {
      this.claimedClass := claimedClass;
    }
  }

  /** The provenance that goes into the evidence. */
  datatype Provenance = Provenance(source: ExecutionClass, verified: bool, id: string, issuedAt: string, requestBinding: string)

  function Unverified(source: ExecutionClass): Provenance {
    Provenance(source, false, "", "", "")
  }

  /** The evidence as it is persisted. */
  datatype EvidenceData = EvidenceData(mode: Mode, screenshot: CaptureStatus, path: string, sha256: string,
                                       provenance: Provenance, blockers: seq<string>, containsScreenContent: bool)

  predicate IsHex64(s: string) {
    |s| == 64 && forall i :: 0 <= i < |s| ==> '0' <= s[i] <= '9' || 'a' <= s[i] <= 'f'
  }

  predicate IsPersistedOfficialProvenance(p: Provenance, parsesAsDate: string -> bool) {
    p.source == Real && p.verified && p.id != "" && parsesAsDate(p.issuedAt) && IsHex64(p.requestBinding)
  }

  /** The validator of persisted evidence. */
  predicate IsLiveEvidence(e: EvidenceData, parsesAsDate: string -> bool) {
    e.mode == LiveCaptureSuccess ==>
      && e.screenshot == Captured && e.path != "" && IsHex64(e.sha256)
      && IsPersistedOfficialProvenance(e.provenance, parsesAsDate)
  }

  /** The evidence object under construction. */
  class Evidence {
    var mode: Mode
    var screenshot: CaptureStatus
    var path: string
    var sha256: string
    var provenance: Provenance
    var blockers: seq<string>
    var containsScreenContent: bool

    constructor (mode: Mode)
      ensures Data() == EvidenceData(mode, NotAttempted, "", "", Unverified(Missing), [], false)
    {
      this.mode, screenshot, path, sha256 := mode, NotAttempted, "", "";
      provenance, blockers, containsScreenContent := Unverified(Missing), [], false;
    }

    function Data(): EvidenceData
      reads this
    {
      EvidenceData(mode, screenshot, path, sha256, provenance, blockers, containsScreenContent)
    }

    /** How the builder ends: an action cannot be done, and only a verified capture is a success. */
    method Conclude(allowAction: bool)
      modifies this
      ensures screenshot == old(screenshot) && path == old(path) && sha256 == old(sha256) && provenance == old(provenance)
      ensures blockers == old(blockers) + if allowAction then ["computer_use_action_adapter_missing"] else []
      ensures mode == if screenshot == Captured && provenance.verified then LiveCaptureSuccess
                      else if blockers != [] then LiveCaptureBlocked else old(mode)
      ensures containsScreenContent <==> old(containsScreenContent) || (screenshot == Captured && provenance.verified)
    {
      if allowAction {
        blockers := blockers + ["computer_use_action_adapter_missing"];
      }
      if screenshot == Captured && provenance.verified {
        mode, containsScreenContent := LiveCaptureSuccess, true;
      } else if blockers != [] {
        mode := LiveCaptureBlocked;
      }
    }
  }

  /** What reading back the captured file yields, or that it failed. */
  datatype FileOutcome = FileFails | FileRead(path: string, digest: string)

  datatype Options = Options(realOptIn: bool, status: Status, captureScreenshot: bool, allowAction: bool, request: Request)

  /** What the adapter's capture function did: it threw, or it returned some object or nothing. */
  datatype Outcome = Threw | Returned(result: CaptureResult?)

  /**
   * The module-level registries, plus the capture results that exist. Only the factory
   * and its adapters write the registries.
   */
  class Registries {
    const hash: Request -> string
    const parsesAsDate: string -> bool
    var adapters: set<Adapter>
    var minted: map<CaptureResult, CaptureAttestation>
    var known: set<CaptureResult>
    /** For which request each minted result was captured. */
    ghost var mintedFor: map<CaptureResult, Request>

    ghost predicate Valid()
      reads this
    {
      && minted.Keys == mintedFor.Keys && minted.Keys <= known
      && forall r :: r in minted ==>
           minted[r].requestBinding == hash(mintedFor[r]) && minted[r].id != "" && parsesAsDate(minted[r].issuedAt)
    }

    constructor (hash: Request -> string, parsesAsDate: string -> bool)
      ensures Valid() && adapters == {} && minted == map[] && known == {}
      ensures this.hash == hash && this.parsesAsDate == parsesAsDate
    {
      this.hash, this.parsesAsDate := hash, parsesAsDate;
      adapters, minted, known, mintedFor := {}, map[], {}, map[];
    }

    /** `createOfficialCodexComputerUseScreenshotAdapter` */
    method CreateOfficialAdapter() returns (a: Adapter)
      requires Valid()
      modifies this
      ensures Valid() && fresh(a) && adapters == old(adapters) + {a}
      ensures minted == old(minted) && mintedFor == old(mintedFor) && known == old(known)
    {
      a := new Adapter(Some(Real));
      adapters := adapters + {a};
    }

    /**
     * The capture function of an official adapter, given what the wrapped callback
     * returned, a fresh identifier and the time.
     */
    method OfficialCapture(request: Request, raw: CaptureResult?, id: string, now: string) returns (result: CaptureResult?)
      requires Valid() && id != "" && parsesAsDate(now)
      modifies this
      ensures Valid() && adapters == old(adapters)
      ensures raw == null || !raw.ok ==> result == raw && minted == old(minted) && mintedFor == old(mintedFor) && known == old(known)
      ensures raw != null && raw.ok ==>
                && result != null && fresh(result) && result.ok && result.redacted == raw.redacted
                && result.attestation != null && fresh(result.attestation)
                && minted == old(minted)[result := result.attestation]
                && mintedFor == old(mintedFor)[result := request]
                && known == old(known) + {result}
    {
      if raw == null || !raw.ok { return raw; }
      var attestation := new CaptureAttestation(id, now, hash(request));
      result := new CaptureResult(true, attestation, raw.redacted);
      minted := minted[result := attestation];
      mintedFor := mintedFor[result := request];
      known := known + {result};
    }

    /**
     * Arbitrary other code, `steps` actions long: it creates adapters, runs official
     * captures for any request and any raw result, makes results of its own, and rewrites
     * the fields of any result, using attestations it finds anywhere.
     */
    method Environment(steps: nat)
      requires Valid()
      modifies this, known
      ensures Valid() && old(adapters) <= adapters && old(known) <= known
      ensures fresh(known - old(known))
      ensures forall r :: r in old(minted) ==> r in minted && minted[r] == old(minted[r]) && mintedFor[r] == old(mintedFor[r])
    {
      for i := 0 to steps
        invariant Valid() && old(adapters) <= adapters && old(known) <= known && fresh(known - old(known))
        invariant forall r :: r in old(minted) ==> r in minted && minted[r] == old(minted[r]) && mintedFor[r] == old(mintedFor[r])
      {
        if * {
          var a := CreateOfficialAdapter();
        } else if * {
          var request: Request := *;
          if known != {} {
            var raw :| raw in known;
            var id: string, now: string := *, *;
            if id != "" && parsesAsDate(now) {
              var result := OfficialCapture(request, raw, id, now);
            }
          }
        } else if * {
          var own := new CaptureResult(true, null, false);
          known := known + {own};
        } else if known != {} {
          var victim :| victim in known;
          var donor :| donor in known;
          var flag: bool := *;
          victim.ok, victim.attestation, victim.redacted := flag, donor.attestation, !flag;
        }
      }
    }

    function ProvenanceOf(a: Adapter): Provenance
      reads this, a
    {
      if a in adapters then Unverified(Real)
      else if a.claimedClass == Some(MockFixture) then Unverified(MockFixture)
      else Unverified(Untrusted)
    }

    /** The result passes the attestation check of the builder for this request. */
    predicate Attested(outcome: Outcome, request: Request)
      reads this, if outcome.Returned? && outcome.result != null then {outcome.result} else {}
    {
      && outcome.Returned? && outcome.result != null && outcome.result.ok
      && outcome.result in minted
      && outcome.result.attestation == minted[outcome.result]
      && minted[outcome.result].requestBinding == hash(request)
    }

    /** What the builder makes of the adapter's outcome. */
    method JudgeCapture(e: Evidence, request: Request, outcome: Outcome, files: FileOutcome)
      requires Valid() && !e.provenance.verified
      modifies e
      ensures e.mode == old(e.mode) && e.containsScreenContent == old(e.containsScreenContent)
      ensures e.screenshot == Captured <==> Attested(outcome, request) && files.FileRead?
      ensures e.screenshot == Captured ==>
                var a := minted[outcome.result];
                && e.path == files.path && e.sha256 == files.digest
                && e.provenance == Provenance(Real, true, a.id, a.issuedAt, a.requestBinding)
      ensures e.screenshot != Captured ==> e.blockers != []
    {
      if outcome.Threw? || outcome.result == null {
        // Reading a field of a missing result throws as well.
        e.screenshot, e.blockers := Failed, e.blockers + ["screenshot_capture_failed"];
        return;
      }
      var result := outcome.result;
      if !result.ok {
        e.screenshot, e.blockers := Blocked, e.blockers + ["external_capability_blocked"];
        return;
      }
      if result !in minted || result.attestation != minted[result] || minted[result].requestBinding != hash(request) {
        e.screenshot, e.blockers := Blocked, e.blockers + ["computer_use_capture_attestation_invalid"];
        return;
      }
      var a := minted[result];
      e.provenance := Provenance(Real, true, a.id, a.issuedAt, a.requestBinding);
      if files.FileFails? {
        e.screenshot, e.blockers := Failed, e.blockers + ["screenshot_capture_failed"];
        return;
      }
      e.screenshot, e.path, e.sha256 := Captured, files.path, files.digest;
    }

    /**
     * Awaiting an adapter: the environment does `steps` arbitrary actions, then the
     * adapter throws, or returns nothing or any result there is.
     */
    method AwaitAdapter(steps: nat) returns (outcome: Outcome)
      requires Valid()
      modifies this, known
      ensures Valid() && old(adapters) <= adapters && fresh(known - old(known))
    {
      Environment(steps);
      var threw: bool, found: bool := *, *;
      if threw { return Threw; }
      outcome := Returned(null);
      if found && known != {} {
        var result :| result in known;
        outcome := Returned(result);
      }
    }

    /** `attemptScreenshotCapture` */
    method AttemptScreenshotCapture(e: Evidence, opts: Options, adapter: Adapter?, steps: nat, files: FileOutcome)
      returns (outcome: Outcome)
      requires Valid() && e.screenshot == NotAttempted && !e.provenance.verified
      modifies this, known, e
      ensures Valid() && old(adapters) <= adapters
      ensures e.mode == old(e.mode) && e.containsScreenContent == old(e.containsScreenContent)
      ensures e.screenshot == Captured <==>
                adapter != null && adapter in old(adapters) && Attested(outcome, opts.request) && files.FileRead?
      ensures e.screenshot == Captured ==>
                var a := minted[outcome.result];
                && e.path == files.path && e.sha256 == files.digest
                && e.provenance == Provenance(Real, true, a.id, a.issuedAt, a.requestBinding)
      ensures e.screenshot != Captured ==> e.blockers != []
    {
      outcome := Threw;
      if adapter == null {
        e.screenshot, e.blockers := Blocked, e.blockers + ["codex_app_capability_missing"];
        return;
      }
      e.provenance := ProvenanceOf(adapter);
      if adapter !in adapters {
        e.screenshot, e.blockers := Blocked, e.blockers + ["computer_use_screenshot_adapter_untrusted"];
        return;
      }
      outcome := AwaitAdapter(steps);
      JudgeCapture(e, opts.request, outcome, files);
    }

    /** The builder after capability detection. */
    method BuildDetected(opts: Options, adapter: Adapter?, capturing: nat, files: FileOutcome)
      returns (e: Evidence, outcome: Outcome)
      requires Valid()
      requires files.FileRead? ==> files.path != "" && IsHex64(files.digest)
      modifies this, known
      ensures Valid() && fresh(e) && old(adapters) <= adapters
      ensures e.mode == LiveCaptureSuccess <==>
                && opts.realOptIn && opts.status == Available && opts.captureScreenshot
                && adapter != null && adapter in old(adapters) && Attested(outcome, opts.request) && files.FileRead?
      ensures e.mode == LiveCaptureSuccess ==>
                var a := minted[outcome.result];
                && e.screenshot == Captured && e.path == files.path && e.sha256 == files.digest
                && e.provenance == Provenance(Real, true, a.id, a.issuedAt, a.requestBinding)
      ensures e.containsScreenContent <==> e.mode == LiveCaptureSuccess
    {
      outcome := Threw;
      e := new Evidence(if opts.realOptIn && opts.status != NotMacos then LiveCaptureAttempted else ProbeOnly);
      if !opts.realOptIn { return; }
      if opts.status == NotMacos {
        e.blockers, e.mode := e.blockers + ["not_macos"], ProbeOnly;
        return;
      }
      if opts.status != Available {
        e.blockers, e.mode := e.blockers + ["status_unavailable"], LiveCaptureBlocked;
        e.screenshot := if opts.captureScreenshot then Blocked else NotAttempted;
        return;
      }
      if opts.captureScreenshot {
        outcome := AttemptScreenshotCapture(e, opts, adapter, capturing, files);
      }
      e.Conclude(opts.allowAction);
    }

    /**
     * `buildComputerUseLiveEvidence`, for every adapter behaviour. Success is reported
     * exactly when an adapter that was registered after capability detection returned an
     * object the factory minted, still carrying its own attestation, whose binding is this
     * request's; and whatever is built is accepted by the validator.
     *
     * `detecting` is how many actions the environment does while capabilities are
     * detected, `capturing` while the adapter is awaited.
     */
    method BuildLiveEvidence(opts: Options, adapter: Adapter?, detecting: nat, capturing: nat, files: FileOutcome)
      returns (e: Evidence, outcome: Outcome, registered: bool)
      requires Valid()
      requires forall request :: IsHex64(hash(request))
      requires files.FileRead? ==> files.path != "" && IsHex64(files.digest)
      modifies this, known
      ensures Valid() && fresh(e)
      ensures IsLiveEvidence(e.Data(), parsesAsDate)
      ensures adapter != null && adapter in old(adapters) ==> registered
      ensures registered ==> adapter != null && adapter in adapters
      ensures e.mode == LiveCaptureSuccess <==>
                && opts.realOptIn && opts.status == Available && opts.captureScreenshot
                && registered && Attested(outcome, opts.request) && files.FileRead?
      ensures e.mode == LiveCaptureSuccess ==>
                && e.provenance.requestBinding == hash(mintedFor[outcome.result]) == hash(opts.request)
                && (Injective(hash) ==> mintedFor[outcome.result] == opts.request)
      ensures e.containsScreenContent <==> e.mode == LiveCaptureSuccess
    {
      Environment(detecting);
      registered := adapter != null && adapter in adapters;
      e, outcome := BuildDetected(opts, adapter, capturing, files);
      assert e.mode == LiveCaptureSuccess ==> outcome.result in minted && minted[outcome.result].requestBinding == hash(opts.request);
    }
  }

  ghost predicate Injective(hash: Request -> string) {
    forall a, b :: hash(a) == hash(b) ==> a == b
  }
}
