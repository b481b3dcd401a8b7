/**
 * Publishing the packaged source (publish.go): the artifact's name and
 * upload URL, the choice between the internal and the public repository,
 * the credential lookup shared with the workflows, and the acceptance of
 * the authentication and upload responses, with the keyring saved only
 * after an accepted upload. The reachability probe `isURLAccessible`
 * (ship.go) decides the domain.
 */
module Publish {
  import opened Common
  import opened Credentials

  const ArtifactDir := ".plasma/platform/package/artifacts"
  const PublicDomain := "https://repositories.skilld.cloud"
  const InternalDomain := "http://repositories.interaction.svc.skilld:8081"

  /** `{repo}-{shortSHA}-plasma-src.tar.gz`. */
  function ArtifactName(repo: string, sha: string): string
  {
    repo + "-" + sha + "-plasma-src.tar.gz"
  }

  /** `{domain}/repository/{repo}-artifacts/{name}`. */
  function ArtifactURL(domain: string, repo: string, name: string): string
  {
    domain + "/repository/" + repo + "-artifacts/" + name
  }

  /** An HTTP response: its code and its status line. */
  datatype Response = Response(code: int, status: string)

  /**
   * `isURLAccessible`: `response` is what the GET brings back (None when
   * the request fails). The result says whether the status is 2xx, and
   * the code the caller passed in is overwritten only when a response
   * arrives.
   */
  function URLAccessible(response: Option<Response>, code: int): (r: (bool, int))
    ensures r.0 <==> response.Some? && 200 <= response.value.code < 300
    ensures response.None? ==> r.1 == code
    ensures response.Some? ==> r.1 == response.value.code
  {
    match response
    case None => (false, code)
    case Some(resp) => (200 <= resp.code < 300, resp.code)
  }

  /** The repository domain: the internal one iff it answers 2xx. */
  function Domain(probe: Option<Response>): (d: string)
    ensures d == InternalDomain <==> URLAccessible(probe, 0).0
  {
    if URLAccessible(probe, 0).0 then InternalDomain else PublicDomain
  }

  /** The requests publishing sends, in order. */
  datatype Request = Probe(url: string) | Auth(url: string, item: Item) | Upload(url: string, item: Item)

  /**
   * What the environment answers: the repository's name and short hash
   * (or the failure to read them), the probe's response, the listing of
   * the artifact directory, whether the artifact is missing or cannot be
   * opened, the credential prompt, and the two responses (None when the
   * request itself fails); `uploadRequestFault` is `http.NewRequest`
   * refusing the upload URL.
   */
  datatype World = World(
    repoInfo: Result<(string, string)>,
    probe: Option<Response>,
    listFault: Option<Error>,
    artifactMissing: bool,
    openFault: bool,
    tty: Result<(string, string)>,
    authResponse: Option<Response>,
    uploadRequestFault: Option<Error>,
    uploadResponse: Option<Response>)

  /** The outcome of `publishArtifact`: the error, the keyring afterwards
      and the requests sent. */
  datatype Outcome = Outcome(err: Option<Error>, keys: KeyState, sent: seq<Request>)

  /** Authentication and upload, once the credentials are known. */
  function TransferSpec(ks: KeyState, domain: string, url: string, item: Item, save: bool, w: World): Outcome
  {
    var auth := [Auth(domain, item)];
    if w.authResponse.None? then Outcome(Some(Fail("error during authentication request")), ks, auth)
    else if w.authResponse.value.code != 200 then
      Outcome(Some(Fail("failed to authenticate: " + w.authResponse.value.status)), ks, auth)
    else if w.uploadRequestFault.Some? then Outcome(w.uploadRequestFault, ks, auth)
    else
      var sent := auth + [Upload(url, item)];
      if w.uploadResponse.None? then Outcome(Some(Fail("error uploading artifact")), ks, sent)
      else if w.uploadResponse.value.code != 200 && w.uploadResponse.value.code != 201 then
        Outcome(Some(Fail("failed to upload artifact: " + w.uploadResponse.value.status)), ks, sent)
      // The deferred save: its error is logged, never returned.
      else Outcome(None, if save then SaveSpec(ks).1 else ks, sent)
  }

  /** `publishArtifact` (publish.go:16-120). */
  function PublishSpec(ks: KeyState, username: string, password: string, w: World): Outcome
  {
    if w.repoInfo.Err? then Outcome(Some(Fail("error getting repository information")), ks, [])
    else
      var (repo, sha) := w.repoInfo.value;
      var name := ArtifactName(repo, sha);
      var probe := [Probe(InternalDomain)];
      var domain := Domain(w.probe);
      if w.listFault.Some? then Outcome(w.listFault, ks, probe)
      else if w.artifactMissing then
        Outcome(Some(Fail("artifact " + name + " not found in " + ArtifactDir + ". Execute 'plasmactl platform:package' before")), ks, probe)
      else if w.openFault then Outcome(Some(Fail("error opening artifact file")), ks, probe)
      else
        var r := ResolveSpec(ks, domain, username, password, w.tty);
        if r.err.Some? then Outcome(r.err, r.keys, probe)
        else
          var rest := TransferSpec(r.keys, domain, ArtifactURL(domain, repo, name), r.item, r.save, w);
          Outcome(rest.err, rest.keys, probe + rest.sent)
  }

  // ---------------------------------------------------------------------
  // Properties

  /** A missing artifact stops publishing before the keyring is consulted
      or anything but the probe is sent. */
  lemma MissingArtifactFirst(ks: KeyState, username: string, password: string, w: World)
    requires w.repoInfo.Ok? && w.listFault.None? && w.artifactMissing
    ensures var o := PublishSpec(ks, username, password, w);
      o.err.Some? && o.keys == ks && o.sent == [Probe(InternalDomain)]
  {
  }

  /** Publishing succeeds exactly when the authentication answers 200 and
      the upload 200 or 201; the upload then goes to the artifact's URL on
      the chosen domain, with the resolved credentials. */
  lemma AcceptedStatuses(ks: KeyState, username: string, password: string, w: World)
    requires w.repoInfo.Ok? && w.listFault.None? && !w.artifactMissing && !w.openFault
    requires ResolveSpec(ks, Domain(w.probe), username, password, w.tty).err.None?
    ensures var o := PublishSpec(ks, username, password, w);
      o.err.None? <==>
        w.authResponse.Some? && w.authResponse.value.code == 200 && w.uploadRequestFault.None? &&
        w.uploadResponse.Some? && (w.uploadResponse.value.code == 200 || w.uploadResponse.value.code == 201)
    ensures var o := PublishSpec(ks, username, password, w);
      var (repo, sha) := w.repoInfo.value;
      var r := ResolveSpec(ks, Domain(w.probe), username, password, w.tty);
      o.err.None? ==> o.sent == [Probe(InternalDomain), Auth(Domain(w.probe), r.item),
                                 Upload(ArtifactURL(Domain(w.probe), repo, ArtifactName(repo, sha)), r.item)]
  {
  }

  /**
   * The keyring reaches the disk only when the credentials were newly
   * added and the upload was accepted; a failing save does not fail
   * publishing.
   */
  lemma SaveOnlyAfterUpload(ks: KeyState, username: string, password: string, w: World)
    ensures var o := PublishSpec(ks, username, password, w);
      var r := ResolveSpec(ks, Domain(w.probe), username, password, w.tty);
      o.keys.stored != ks.stored ==> o.err.None? && r.save && ks.saveFault.None?
    ensures var o := PublishSpec(ks, username, password, w);
      ks.saveFault.Some? && o.err.None? ==> o.keys.stored == ks.stored
  {
    var r := ResolveSpec(ks, Domain(w.probe), username, password, w.tty);
    ResolveTable(ks, Domain(w.probe), username, password, w.tty);
  }

  /** A second artifact of the same repository gets a different name
      exactly when its short hash differs. */
  lemma NamesDistinguishCommits(repo: string, a: string, b: string)
    ensures ArtifactName(repo, a) == ArtifactName(repo, b) <==> a == b
  {
    var suffix := "-plasma-src.tar.gz";
    if ArtifactName(repo, a) == ArtifactName(repo, b) {
      var na := ArtifactName(repo, a);
      assert na == (repo + "-") + a + suffix;
      assert ArtifactName(repo, b) == (repo + "-") + b + suffix;
      assert |a| == |b|;
      assert na[|repo| + 1..|repo| + 1 + |a|] == a;
      assert ArtifactName(repo, b)[|repo| + 1..|repo| + 1 + |b|] == b;
    }
  }

  // ---------------------------------------------------------------------
  // The chain as it runs

  /** The requests sent so far and the keyring, as `publishArtifact` drives
      them. */
  class Publisher {
    var sent: seq<Request>

    constructor ()
      ensures sent == []
    {
      sent := [];
    }

    /** `isURLAccessible`, sending the probe. */
    method CheckURL(url: string, response: Option<Response>, code: int) returns (ok: bool, code': int)
      modifies this
      ensures sent == old(sent) + [Probe(url)]
      ensures (ok, code') == URLAccessible(response, code)
    {
      sent := sent + [Probe(url)];
      if response.None? {
        return false, code;
      }
      code' := response.value.code;
      ok := 200 <= response.value.code < 300;
    }

    /** Authentication, upload and the deferred save. */
    method Transfer(k: Keyring, domain: string, url: string, item: Item, save: bool, w: World)
      returns (err: Option<Error>)
      modifies this, k
      ensures var o := TransferSpec(old(k.state), domain, url, item, save, w);
        err == o.err && k.state == o.keys && sent == old(sent) + o.sent
    {
      sent := sent + [Auth(domain, item)];
      if w.authResponse.None? {
        return Some(Fail("error during authentication request"));
      }
      if w.authResponse.value.code != 200 {
        return Some(Fail("failed to authenticate: " + w.authResponse.value.status));
      }
      if w.uploadRequestFault.Some? {
        return w.uploadRequestFault;
      }
      sent := sent + [Upload(url, item)];
      AppendAssoc(old(sent), [Auth(domain, item)], [Upload(url, item)]);
      if w.uploadResponse.None? {
        return Some(Fail("error uploading artifact"));
      }
      var code := w.uploadResponse.value.code;
      if code != 200 && code != 201 {
        return Some(Fail("failed to upload artifact: " + w.uploadResponse.value.status));
      }
      if save {
        var saveErr := k.Save();
      }
      return None;
    }

    /** `publishArtifact` (publish.go:16-120) against the keyring `k`. */
    method Publish(k: Keyring, username: string, password: string, w: World) returns (err: Option<Error>)
      modifies this, k
      ensures var o := PublishSpec(old(k.state), username, password, w);
        err == o.err && k.state == o.keys && sent == old(sent) + o.sent
    {
      if w.repoInfo.Err? {
        return Some(Fail("error getting repository information"));
      }
      var (repo, sha) := w.repoInfo.value;
      var name := ArtifactName(repo, sha);
      var domain := PublicDomain;
      var code := 0;
      var reachable;
      reachable, code := CheckURL(InternalDomain, w.probe, code);
      if reachable {
        domain := InternalDomain;
      }
      var url := ArtifactURL(domain, repo, name);
      if w.listFault.Some? {
        return w.listFault;
      }
      if w.artifactMissing {
        return Some(Fail("artifact " + name + " not found in " + ArtifactDir + ". Execute 'plasmactl platform:package' before"));
      }
      if w.openFault {
        return Some(Fail("error opening artifact file"));
      }
      var item, save, credErr, _ := Resolve(k, domain, username, password, w.tty);
      if credErr.Some? {
        return credErr;
      }
      ghost var before := sent;
      err := Transfer(k, domain, url, item, save, w);
      AppendAssoc(old(sent), [Probe(InternalDomain)], sent[|before|..]);
      assert sent == before + sent[|before|..];
    }
  }
}
