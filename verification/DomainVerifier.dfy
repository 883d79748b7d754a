/**
 Matching an application against the asset file its domain serves: which entry
 decides, and what a success proves.
 */
module DomainVerifier {
  import opened VerifyTypes

  datatype AppVerifyBaseInfo = AppVerifyBaseInfo(
    appIdentifier: string, bundleName: string, fingerprint: string, priority: Int32, isPreinstalled: bool)

  /** `apps` is the parsed asset file, `None` when the body does not parse. */
  datatype HttpResponse = HttpResponse(responseCode: int, apps: Option<seq<AppVerifyBaseInfo>>)

  const OK: int := 200
  const MULT_CHOICE: int := 300
  const BAD_REQUEST: int := 400
  const INTERNAL_ERROR: int := 500

  // ---------- entry by entry ----------

  /** An entry with an identifier ends the identifier pass if it names the app's
      identifier, or, under another identifier, the app's bundle. */
  predicate Deciding(app: AppVerifyBaseInfo, entry: AppVerifyBaseInfo) {
    && entry.appIdentifier != ""
    && (entry.appIdentifier == app.appIdentifier || (app.bundleName != "" && app.bundleName == entry.bundleName))
  }

  /** Fields that both sides give must agree. */
  predicate Compatible(ours: string, theirs: string) {
    ours == "" || theirs == "" || ours == theirs
  }

  predicate Vouches(app: AppVerifyBaseInfo, entry: AppVerifyBaseInfo) {
    && entry.appIdentifier == app.appIdentifier
    && Compatible(app.bundleName, entry.bundleName)
    && Compatible(app.fingerprint, entry.fingerprint)
  }

  predicate SameBundleAndPrint(app: AppVerifyBaseInfo, entry: AppVerifyBaseInfo) {
    app.bundleName == entry.bundleName && app.fingerprint == entry.fingerprint
  }

  // ---------- what the passes compute ----------

  /** The first entry satisfying the pass's test. */
  function FirstEntry(apps: seq<AppVerifyBaseInfo>, test: AppVerifyBaseInfo -> bool): Option<AppVerifyBaseInfo> {
    if apps == [] then None else if test(apps[0]) then Some(apps[0]) else FirstEntry(apps[1..], test)
  }

  function Decides(app: AppVerifyBaseInfo): AppVerifyBaseInfo -> bool {
    (entry: AppVerifyBaseInfo) => Deciding(app, entry)
  }

  function Shares(app: AppVerifyBaseInfo): AppVerifyBaseInfo -> bool {
    (entry: AppVerifyBaseInfo) => SameBundleAndPrint(app, entry)
  }

  function IdentifierPass(apps: seq<AppVerifyBaseInfo>, app: AppVerifyBaseInfo): (InnerVerifyStatus, Int32) {
    if app.appIdentifier == "" then (UNKNOWN, app.priority)
    else
      match FirstEntry(apps, Decides(app))
      case None => (UNKNOWN, app.priority)
      case Some(entry) =>
        if Vouches(app, entry) then (STATE_SUCCESS, entry.priority) else (STATE_FAIL, app.priority)
  }

  function BundlePass(apps: seq<AppVerifyBaseInfo>, app: AppVerifyBaseInfo): (InnerVerifyStatus, Int32) {
    if app.bundleName == "" || app.fingerprint == "" then (STATE_FAIL, app.priority)
    else
      match FirstEntry(apps, Shares(app))
      case None => (STATE_FAIL, app.priority)
      case Some(entry) => (STATE_SUCCESS, entry.priority)
  }

  function HttpErrorStatus(code: int): InnerVerifyStatus {
    if MULT_CHOICE <= code < BAD_REQUEST then FAILURE_REDIRECT
    else if BAD_REQUEST <= code < INTERNAL_ERROR then FAILURE_CLIENT_ERROR
    else if INTERNAL_ERROR <= code then FAILURE_REJECTED_BY_SERVER
    else FAILURE_HTTP_UNKNOWN
  }

  /** The status of the host and the priority left in the app's record. */
  function HostVerdict(response: HttpResponse, app: AppVerifyBaseInfo): (InnerVerifyStatus, Int32) {
    if response.responseCode != OK then (HttpErrorStatus(response.responseCode), app.priority)
    else if response.apps.None? then (STATE_FAIL, app.priority)
    else
      var pass := IdentifierPass(response.apps.value, app);
      if pass.0 == UNKNOWN then BundlePass(response.apps.value, app) else pass
  }

  lemma {:induction false} FirstEntryMeaning(apps: seq<AppVerifyBaseInfo>, test: AppVerifyBaseInfo -> bool)
    ensures FirstEntry(apps, test).None? <==> forall i :: 0 <= i < |apps| ==> !test(apps[i])
    ensures FirstEntry(apps, test).Some? ==>
      exists i :: 0 <= i < |apps| && IsFirst(apps, test, i) && FirstEntry(apps, test).value == apps[i]
  {
    if apps != [] {
      if test(apps[0]) {
        assert IsFirst(apps, test, 0);
      } else {
        FirstEntryMeaning(apps[1..], test);
        if FirstEntry(apps[1..], test).Some? {
          var rest := apps[1..];
          var i :| 0 <= i < |rest| && IsFirst(rest, test, i) && FirstEntry(rest, test).value == rest[i];
          forall j | 0 <= j < i + 1 ensures !test(apps[j]) {
            if j > 0 { assert apps[1..][j - 1] == apps[j]; }
          }
          assert IsFirst(apps, test, i + 1);
        } else {
          forall i | 0 <= i < |apps| ensures !test(apps[i]) {
            if i > 0 { assert apps[1..][i - 1] == apps[i]; }
          }
        }
      }
    }
  }

  ghost predicate IsFirst(apps: seq<AppVerifyBaseInfo>, test: AppVerifyBaseInfo -> bool, i: nat) {
    i < |apps| && test(apps[i]) && forall j :: 0 <= j < i ==> !test(apps[j])
  }

  // ---------- the loops ----------

  /** Entries before position `i` that fail the test do not change the first one. */
  lemma {:induction false} FirstEntryFrom(apps: seq<AppVerifyBaseInfo>, test: AppVerifyBaseInfo -> bool, i: nat)
    requires i <= |apps| && forall j :: 0 <= j < i ==> !test(apps[j])
    ensures FirstEntry(apps, test) == FirstEntry(apps[i..], test)
  {
    if i > 0 {
      assert forall j :: 0 <= j < i - 1 ==> apps[1..][j] == apps[j + 1];
      FirstEntryFrom(apps[1..], test, i - 1);
      assert apps[1..][i - 1..] == apps[i..];
    } else {
      assert apps[0..] == apps;
    }
  }

  method VerifyHostWithAppIdentifier(apps: seq<AppVerifyBaseInfo>, app: AppVerifyBaseInfo)
    returns (status: InnerVerifyStatus, priority: Int32)
    ensures (status, priority) == IdentifierPass(apps, app)
  {
    if app.appIdentifier == "" {
      return UNKNOWN, app.priority;
    }
    for i := 0 to |apps|
      invariant forall j :: 0 <= j < i ==> !Decides(app)(apps[j])
    {
      var itr := apps[i];
      FirstEntryFrom(apps, Decides(app), i);
      if itr.appIdentifier == "" {
        continue;
      }
      if app.appIdentifier == itr.appIdentifier {
        if app.bundleName != "" && itr.bundleName != "" && app.bundleName != itr.bundleName {
          return STATE_FAIL, app.priority;
        }
        if app.fingerprint != "" && itr.fingerprint != "" && app.fingerprint != itr.fingerprint {
          return STATE_FAIL, app.priority;
        }
        return STATE_SUCCESS, itr.priority;
      }
      if app.bundleName != "" && app.bundleName == itr.bundleName {
        return STATE_FAIL, app.priority;
      }
    }
    FirstEntryFrom(apps, Decides(app), |apps|);
    return UNKNOWN, app.priority;
  }

  method VerifyHostWithBundleName(apps: seq<AppVerifyBaseInfo>, app: AppVerifyBaseInfo)
    returns (status: InnerVerifyStatus, priority: Int32)
    ensures (status, priority) == BundlePass(apps, app)
  {
    if app.bundleName == "" || app.fingerprint == "" {
      return STATE_FAIL, app.priority;
    }
    for i := 0 to |apps|
      invariant forall j :: 0 <= j < i ==> !Shares(app)(apps[j])
    {
      var itr := apps[i];
      FirstEntryFrom(apps, Shares(app), i);
      if app.bundleName == itr.bundleName {
        if app.fingerprint == itr.fingerprint {
          return STATE_SUCCESS, itr.priority;
        }
      }
    }
    FirstEntryFrom(apps, Shares(app), |apps|);
    return STATE_FAIL, app.priority;
  }

  method VerifyHost(response: HttpResponse, app: AppVerifyBaseInfo) returns (status: InnerVerifyStatus, priority: Int32)
    ensures (status, priority) == HostVerdict(response, app)
  {
    if response.responseCode != OK {
      return HttpErrorStatus(response.responseCode), app.priority;
    }
    if response.apps.Some? {
      status, priority := VerifyHostWithAppIdentifier(response.apps.value, app);
      if status == UNKNOWN {
        status, priority := VerifyHostWithBundleName(response.apps.value, app);
      }
      return;
    }
    return STATE_FAIL, app.priority;
  }

  // ---------- what a verdict proves ----------

  /** The identifier pass is decided by the first deciding entry, whatever the
      file says after it. */
  lemma {:induction false} FirstDecidingEntryDecides(
    before: seq<AppVerifyBaseInfo>, entry: AppVerifyBaseInfo, after: seq<AppVerifyBaseInfo>, app: AppVerifyBaseInfo)
    requires app.appIdentifier != "" && Deciding(app, entry)
    requires forall i :: 0 <= i < |before| ==> !Deciding(app, before[i])
    ensures IdentifierPass(before + [entry] + after, app) ==
      if Vouches(app, entry) then (STATE_SUCCESS, entry.priority) else (STATE_FAIL, app.priority)
  {
    var apps := before + [entry] + after;
    FirstEntryFrom(apps, Decides(app), |before|);
    assert apps[|before|..][0] == entry;
  }

  /** With an identifier, a success of the fallback comes from an entry that has
      none: an entry claiming the bundle under another identifier has decided. */
  lemma {:induction false} FallbackNeedsNoIdentifier(apps: seq<AppVerifyBaseInfo>, app: AppVerifyBaseInfo, i: nat)
    requires app.appIdentifier != "" && IdentifierPass(apps, app).0 == UNKNOWN
    requires i < |apps| && app.bundleName != "" && SameBundleAndPrint(app, apps[i])
    ensures apps[i].appIdentifier == ""
  {
    FirstEntryMeaning(apps, Decides(app));
    assert !Decides(app)(apps[i]);
  }

  /** `apps[i]` proves the app: it is the first deciding entry and vouches for the
      identifier, or nothing decides and it is the first with bundle and print. */
  ghost predicate Witness(apps: seq<AppVerifyBaseInfo>, app: AppVerifyBaseInfo, i: nat) {
    || (app.appIdentifier != "" && IsFirst(apps, Decides(app), i) && Vouches(app, apps[i]))
    || (&& (app.appIdentifier == "" || forall j :: 0 <= j < |apps| ==> !Deciding(app, apps[j]))
        && app.bundleName != "" && app.fingerprint != ""
        && IsFirst(apps, Shares(app), i))
  }

  /** A host verifies exactly when it answered 200 with an asset file holding a
      witness; the witness's priority is the one stored, and only a success
      stores one. */
  lemma {:induction false} SuccessMeansWitness(response: HttpResponse, app: AppVerifyBaseInfo)
    ensures HostVerdict(response, app).0 == STATE_SUCCESS <==>
      response.responseCode == 200 && response.apps.Some? && exists i: nat :: Witness(response.apps.value, app, i)
    ensures response.responseCode == 200 && response.apps.Some? ==>
      forall i: nat :: Witness(response.apps.value, app, i) ==>
        HostVerdict(response, app) == (STATE_SUCCESS, response.apps.value[i].priority)
    ensures HostVerdict(response, app).0 != STATE_SUCCESS ==> HostVerdict(response, app).1 == app.priority
  {
    if response.responseCode == 200 && response.apps.Some? {
      var apps := response.apps.value;
      FirstEntryMeaning(apps, Decides(app));
      FirstEntryMeaning(apps, Shares(app));
      assert forall j :: 0 <= j < |apps| ==> Decides(app)(apps[j]) == Deciding(app, apps[j]);
      if HostVerdict(response, app).0 == STATE_SUCCESS {
        var decided := app.appIdentifier != "" && FirstEntry(apps, Decides(app)).Some?;
        if decided {
          var i :| 0 <= i < |apps| && IsFirst(apps, Decides(app), i) && FirstEntry(apps, Decides(app)).value == apps[i];
          assert Witness(apps, app, i);
        } else {
          var i :| 0 <= i < |apps| && IsFirst(apps, Shares(app), i) && FirstEntry(apps, Shares(app)).value == apps[i];
          assert Witness(apps, app, i);
        }
      }
      forall i: nat | Witness(apps, app, i)
        ensures HostVerdict(response, app) == (STATE_SUCCESS, apps[i].priority)
      {
        if app.appIdentifier != "" && FirstEntry(apps, Decides(app)).Some? {
          assert IsFirst(apps, Decides(app), i);
          FirstEntryFrom(apps, Decides(app), i);
        } else {
          FirstEntryFrom(apps, Shares(app), i);
        }
      }
    }
  }

  // ---------- in the fields of the entries alone ----------

  /** Entry `i` proves the app. Either it has the app's identifier, no entry before it
      that has an identifier carries that or the app's bundle, and bundles and
      fingerprints agree where both are given. Or no such entry decides at all, and
      it is the first with the app's bundle and fingerprint, both given. */
  ghost predicate Proves(apps: seq<AppVerifyBaseInfo>, app: AppVerifyBaseInfo, i: nat) {
    && i < |apps|
    && (|| (&& app.appIdentifier != "" && apps[i].appIdentifier == app.appIdentifier
            && (forall j :: 0 <= j < i && apps[j].appIdentifier != "" ==>
                  && apps[j].appIdentifier != app.appIdentifier
                  && (app.bundleName == "" || apps[j].bundleName != app.bundleName))
            && (app.bundleName == "" || apps[i].bundleName == "" || apps[i].bundleName == app.bundleName)
            && (app.fingerprint == "" || apps[i].fingerprint == "" || apps[i].fingerprint == app.fingerprint))
        || (&& (app.appIdentifier != "" ==>
                  forall j :: 0 <= j < |apps| && apps[j].appIdentifier != "" ==>
                    && apps[j].appIdentifier != app.appIdentifier
                    && (app.bundleName == "" || apps[j].bundleName != app.bundleName))
            && app.bundleName != "" && apps[i].bundleName == app.bundleName
            && app.fingerprint != "" && apps[i].fingerprint == app.fingerprint
            && forall j :: 0 <= j < i ==>
                 apps[j].bundleName != app.bundleName || apps[j].fingerprint != app.fingerprint))
  }

  lemma {:induction false} ProvesIsWitness(apps: seq<AppVerifyBaseInfo>, app: AppVerifyBaseInfo, i: nat)
    ensures Proves(apps, app, i) <==> Witness(apps, app, i)
  {
    if i < |apps| {
      assert forall j :: 0 <= j < |apps| ==> Decides(app)(apps[j]) == Deciding(app, apps[j]);
      assert forall j :: 0 <= j < |apps| ==> Shares(app)(apps[j]) == SameBundleAndPrint(app, apps[j]);
      assert IsFirst(apps, Decides(app), i) <==>
        Deciding(app, apps[i]) && forall j :: 0 <= j < i ==> !Deciding(app, apps[j]);
    }
  }

  /** A host succeeds if and only if it answered 200 with a file one entry of which
      proves the app; that entry's priority is left. Any other answer with status
      200 fails, and any other answer leaves the app's own priority. */
  lemma {:induction false} VerifiesExactly(response: HttpResponse, app: AppVerifyBaseInfo)
    ensures HostVerdict(response, app).0 == 1 <==>
      response.responseCode == 200 && response.apps.Some? && exists i: nat :: Proves(response.apps.value, app, i)
    ensures response.responseCode == 200 && response.apps.Some? ==>
      forall i: nat :: Proves(response.apps.value, app, i) ==>
        HostVerdict(response, app) == (1, response.apps.value[i].priority)
    ensures HostVerdict(response, app).0 != 1 ==> HostVerdict(response, app).1 == app.priority
    ensures response.responseCode == 200 && HostVerdict(response, app).0 != 1 ==> HostVerdict(response, app).0 == 2
  {
    SuccessMeansWitness(response, app);
    if response.apps.Some? {
      var apps := response.apps.value;
      forall i: nat ensures Proves(apps, app, i) <==> Witness(apps, app, i) {
        ProvesIsWitness(apps, app, i);
      }
    }
  }
}
