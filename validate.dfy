/**
 * `platform:validate` (actions/validate/validate.go, and its twin
 * validate.go with the same lines): the checks of a platform's
 * configuration, the DNS and mail-authentication lookups, and the count of
 * node files. Only a missing name or metal provider fails validation;
 * everything else is reported as a warning.
 */
module Validate {
  import opened Common
  import opened Paths
  import opened Schema

  /** How a check is reported: ✓, ! or ✗. */
  datatype Level = Passed | Warned | Failed

  datatype Topic = Name | MetalProvider | Domain | MX | Addresses | SPF | DMARC | DKIM | Nodes(count: nat)

  /** One line of the report. */
  datatype Line = Line(level: Level, topic: Topic)

  /** What reading `inst/{name}/platform.yaml` gives. */
  datatype PlatformFile = Missing | ReadFault(e: Error) | ParseFault(e: Error) | Parsed(p: Platform)

  /** An entry of the nodes directory. */
  datatype DirEntry = DirEntry(name: string, isDir: bool)

  /**
   * The answers of the environment: the platform file, the MX and address
   * lookups (their record counts, or the failure), the TXT records by name
   * (a failed lookup gives none), and the nodes directory's entries (None
   * when it cannot be read).
   */
  datatype World = World(file: PlatformFile, mx: Result<nat>, ips: Result<nat>,
                         txt: map<string, seq<string>>, nodes: Option<seq<DirEntry>>)

  datatype Options = Options(name: string, skipDNS: bool, skipMail: bool)

  function Txt(w: World, name: string): seq<string>
  {
    if name in w.txt then w.txt[name] else []
  }

  /** The three mail-authentication predicates over the TXT records found. */
  predicate HasSPF(records: seq<string>)
  {
    exists i :: 0 <= i < |records| && HasPrefix(records[i], "v=spf1")
  }

  predicate HasDMARC(records: seq<string>)
  {
    exists i :: 0 <= i < |records| && HasPrefix(records[i], "v=DMARC1")
  }

  predicate HasDKIM(records: seq<string>)
  {
    exists i :: 0 <= i < |records| && Contains(records[i], "v=DKIM1")
  }

  function Check(ok: bool, topic: Topic): Line
  {
    Line(if ok then Passed else Warned, topic)
  }

  /** `validateDNS`: a warning when a lookup fails or finds nothing. */
  function DnsLines(domain: string, w: World): seq<Line>
  {
    [Check(w.mx.Ok? && w.mx.value > 0, MX), Check(w.ips.Ok? && w.ips.value > 0, Addresses)]
  }

  /** `validateMailAuth`: SPF at the domain, DMARC at `_dmarc.`, DKIM at
      the `default` selector. */
  function MailLines(domain: string, w: World): seq<Line>
  {
    [Check(HasSPF(Txt(w, domain)), SPF),
     Check(HasDMARC(Txt(w, "_dmarc." + domain)), DMARC),
     Check(HasDKIM(Txt(w, "default._domainkey." + domain)), DKIM)]
  }

  /** A node file: not a directory, extension `.yaml`, not `.gitkeep`. */
  predicate NodeFile(e: DirEntry)
  {
    !e.isDir && Ext(e.name) == ".yaml" && e.name != ".gitkeep"
  }

  function NodeCount(entries: seq<DirEntry>): (n: nat)
    ensures n <= |entries|
  {
    if |entries| == 0 then 0
    else NodeCount(entries[..|entries| - 1]) + (if NodeFile(entries[|entries| - 1]) then 1 else 0)
  }

  /** The three checks of the configuration itself. */
  function BasicLines(p: Platform): seq<Line>
  {
    [Line(if p.name == "" then Failed else Passed, Name),
     Line(if p.infrastructure.metalProvider == "" then Failed else Passed, MetalProvider),
     Check(p.dns.domain != "", Domain)]
  }

  function DnsPart(o: Options, domain: string, w: World): seq<Line>
  {
    if !o.skipDNS && domain != "" then DnsLines(domain, w) else []
  }

  function MailPart(o: Options, domain: string, w: World): seq<Line>
  {
    if !o.skipMail && domain != "" then MailLines(domain, w) else []
  }

  /** The node count; an unreadable directory counts none. */
  function Count(w: World): nat
  {
    if w.nodes.Some? then NodeCount(w.nodes.value) else 0
  }

  /** The outcome of `Execute`: the error and the report. */
  function ValidateSpec(o: Options, w: World): (Option<Error>, seq<Line>)
  {
    match w.file
    case Missing => (Some(Fail("platform " + Quote(o.name) + " not found")), [])
    case ReadFault(e) => (Some(Wrap("failed to read platform.yaml", e)), [])
    case ParseFault(e) => (Some(Wrap("failed to parse platform.yaml", e)), [])
    case Parsed(p) =>
      var failed := p.name == "" || p.infrastructure.metalProvider == "";
      (if failed then Some(Fail("validation failed")) else None,
       BasicLines(p) + DnsPart(o, p.dns.domain, w) + MailPart(o, p.dns.domain, w) + [Check(Count(w) > 0, Nodes(Count(w)))])
  }

  // ---------------------------------------------------------------------
  // Properties

  /** Validation of a readable platform fails exactly when its name or its
      metal provider is empty, and a failure is reported as ✗ on that
      field. */
  lemma FailsOnlyOnMissingFields(o: Options, w: World)
    requires w.file.Parsed?
    ensures var (err, lines) := ValidateSpec(o, w);
      && (err.Some? <==> w.file.p.name == "" || w.file.p.infrastructure.metalProvider == "")
      && (err.Some? ==> err == Some(Fail("validation failed")))
      && (forall i :: 0 <= i < |lines| && lines[i].level.Failed? ==> lines[i].topic in {Name, MetalProvider})
  {
    var (err, lines) := ValidateSpec(o, w);
    var p := w.file.p;
    forall i | 0 <= i < |lines| && lines[i].level.Failed?
      ensures lines[i].topic in {Name, MetalProvider}
    {
      assert i < 2;
    }
  }

  /** The DNS and mail answers, the skip flags and the node files never
      change the verdict: the lookups cannot set the error flag. */
  lemma LookupsNeverFail(o: Options, w: World, o': Options, w': World)
    requires w.file == w'.file && o.name == o'.name
    ensures ValidateSpec(o, w).0 == ValidateSpec(o', w').0
  {
  }

  /** DNS records are looked up iff not skipped and a domain is set; mail
      records likewise. */
  lemma LookupGates(o: Options, w: World)
    requires w.file.Parsed?
    ensures var lines := ValidateSpec(o, w).1;
      var domain := w.file.p.dns.domain;
      && (Line(Check(w.mx.Ok? && w.mx.value > 0, MX).level, MX) in lines <==> !o.skipDNS && domain != "")
      && (Check(HasSPF(Txt(w, domain)), SPF) in lines <==> !o.skipMail && domain != "")
  {
    var lines := ValidateSpec(o, w).1;
    var domain := w.file.p.dns.domain;
    if !o.skipDNS && domain != "" {
      assert lines[3].topic == MX;
    }
    if !o.skipMail && domain != "" {
      var k := if !o.skipDNS then 5 else 3;
      assert lines[k] == Check(HasSPF(Txt(w, domain)), SPF);
    }
  }

  /** `.gitkeep` has the extension `.gitkeep`, so the explicit exclusion
      never removes an entry the extension test let through: a node file is
      any non-directory entry whose extension is `.yaml`. */
  lemma GitkeepRedundant(e: DirEntry)
    ensures NodeFile(e) <==> !e.isDir && Ext(e.name) == ".yaml"
  {
  }

  /** The count adds up over the directory listing. */
  lemma {:induction false} NodeCountAppend(a: seq<DirEntry>, b: seq<DirEntry>)
    ensures NodeCount(a + b) == NodeCount(a) + NodeCount(b)
    decreases |b|
  {
    if |b| > 0 {
      assert (a + b)[..|a + b| - 1] == a + b[..|b| - 1];
      NodeCountAppend(a, b[..|b| - 1]);
    } else {
      assert a + b == a;
    }
  }

  /** No node files are counted exactly when no entry is one: the
      warning about a platform without nodes. */
  lemma {:induction false} NodeCountZero(entries: seq<DirEntry>)
    ensures NodeCount(entries) == 0 <==> forall i :: 0 <= i < |entries| ==> !NodeFile(entries[i])
    decreases |entries|
  {
    if |entries| > 0 {
      var init := entries[..|entries| - 1];
      NodeCountZero(init);
      assert forall i :: 0 <= i < |init| ==> init[i] == entries[i];
    }
  }

  // ---------------------------------------------------------------------
  // The action as it runs

  predicate Marked(record: string, marker: string, anywhere: bool)
  {
    if anywhere then Contains(record, marker) else HasPrefix(record, marker)
  }

  /** The search loop of each mail check: the first record that carries
      the marker, at its start or anywhere. */
  method AnyRecord(records: seq<string>, marker: string, anywhere: bool) returns (found: bool)
    ensures found <==> exists i :: 0 <= i < |records| && Marked(records[i], marker, anywhere)
  {
    found := false;
    var i := 0;
    while i < |records|
      invariant 0 <= i <= |records|
      invariant forall j :: 0 <= j < i ==> !Marked(records[j], marker, anywhere)
    {
      if Marked(records[i], marker, anywhere) {
        found := true;
        break;
      }
      i := i + 1;
    }
  }

  /** `validateMailAuth`: it reports, and leaves the error flag alone. */
  method ValidateMailAuth(domain: string, w: World, hasErrors: bool) returns (lines: seq<Line>, hasErrors': bool)
    ensures lines == MailLines(domain, w) && hasErrors' == hasErrors
  {
    var spf := AnyRecord(Txt(w, domain), "v=spf1", false);
    var dmarc := AnyRecord(Txt(w, "_dmarc." + domain), "v=DMARC1", false);
    var dkim := AnyRecord(Txt(w, "default._domainkey." + domain), "v=DKIM1", true);
    lines := [Check(spf, SPF), Check(dmarc, DMARC), Check(dkim, DKIM)];
    hasErrors' := hasErrors;
  }

  /** The loop counting node files. */
  method CountNodes(entries: seq<DirEntry>) returns (count: nat)
    ensures count == NodeCount(entries)
  {
    count := 0;
    var i := 0;
    while i < |entries|
      invariant 0 <= i <= |entries|
      invariant count == NodeCount(entries[..i])
    {
      assert entries[..i + 1][..i] == entries[..i];
      if !entries[i].isDir && Ext(entries[i].name) == ".yaml" && entries[i].name != ".gitkeep" {
        count := count + 1;
      }
      i := i + 1;
    }
    assert entries[..i] == entries;
  }

  /** `Execute` (actions/validate/validate.go:35-123). */
  method Execute(o: Options, w: World) returns (err: Option<Error>, report: seq<Line>)
    ensures (err, report) == ValidateSpec(o, w)
  {
    if w.file.Missing? {
      return Some(Fail("platform " + Quote(o.name) + " not found")), [];
    }
    if w.file.ReadFault? {
      return Some(Wrap("failed to read platform.yaml", w.file.e)), [];
    }
    if w.file.ParseFault? {
      return Some(Wrap("failed to parse platform.yaml", w.file.e)), [];
    }
    var p := w.file.p;
    var hasErrors := false;
    report := [];
    if p.name == "" {
      report := report + [Line(Failed, Name)];
      hasErrors := true;
    } else {
      report := report + [Line(Passed, Name)];
    }
    if p.infrastructure.metalProvider == "" {
      report := report + [Line(Failed, MetalProvider)];
      hasErrors := true;
    } else {
      report := report + [Line(Passed, MetalProvider)];
    }
    var domain := p.dns.domain;
    report := report + [Check(domain != "", Domain)];
    assert report == BasicLines(p);
    var dns: seq<Line> := [];
    if !o.skipDNS && domain != "" {
      dns := DnsLines(domain, w);
    }
    report := report + dns;
    var mail: seq<Line> := [];
    if !o.skipMail && domain != "" {
      mail, hasErrors := ValidateMailAuth(domain, w, hasErrors);
    }
    report := report + mail;
    var count := 0;
    if w.nodes.Some? {
      count := CountNodes(w.nodes.value);
    }
    report := report + [Check(count > 0, Nodes(count))];
    if hasErrors {
      err := Some(Fail("validation failed"));
    } else {
      err := None;
    }
  }
}
