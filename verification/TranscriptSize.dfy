/** How long the printed fixture is, and so which accepted transcripts pass the validator. */
module TranscriptSize {
  import opened Results
  import opened Text
  import opened JsonText
  import opened Pseudonyms
  import opened TranscriptParse
  import opened TranscriptFixture
  import opened TranscriptAgreement
  import opened TranscriptRenaming
  import opened TranscriptValidity
  import opened TranscriptClosed

  // ---------------------------------------------------------------- the identifier is the only free part

  /** Everything printed besides the fixture identifier. */
  function FrameSize(f: Fixture): nat
  {
    |FixtureText(f.(fixtureId := ""))|
  }

  lemma SlugVerbatim(id: string)
    requires id == "" || IsSlug(id)
    ensures IsPlain(id) && Escape(id) == id
  {
    EscapeVerbatim(id);
  }

  lemma StrMember(key: string, text: string, depth: nat)
    requires Escape(text) == text
    ensures |PrintMember(Member(key, Str(text)), depth)| == 2 * depth + |Quote(key)| + 4 + |text|
  {
    hide Escape;
  }

  lemma ObjectMember(key: string, members: seq<Member>, depth: nat)
    requires members != []
    ensures |PrintMember(Member(key, Object(members)), depth)|
            == 2 * depth + |Quote(key)| + 4 + MembersSize(members, depth + 1) + 2 * depth
  {
    ObjectLength(members, depth);
    hide MembersSize, Print, Quote;
  }

  /** The provenance grows with the identifier, character by character. */
  lemma ProvenanceSize(f: Fixture)
    requires f.fixtureId == "" || IsSlug(f.fixtureId)
    ensures MembersSize(Provenance(f), 2) == MembersSize(Provenance(f.(fixtureId := "")), 2) + |f.fixtureId|
  {
    hide *;
    SlugVerbatim(f.fixtureId);
    SlugVerbatim("");
    var a, b := ProvenanceParts(f);
    MembersSizeAround(a, Member("fixtureId", Str(f.fixtureId)), b, 2);
    MembersSizeAround(a, Member("fixtureId", Str("")), b, 2);
    StrMember("fixtureId", f.fixtureId, 2);
    StrMember("fixtureId", "", 2);
  }

  lemma ProvenanceParts(f: Fixture) returns (a: seq<Member>, b: seq<Member>)
    ensures Provenance(f) == a + [Member("fixtureId", Str(f.fixtureId))] + b
    ensures Provenance(f.(fixtureId := "")) == a + [Member("fixtureId", Str(""))] + b
  {
    hide EnvironmentName, SourceName;
    a, b := Provenance(f)[..3], Provenance(f)[4..];
  }

  /** What follows the provenance. */
  function Body(f: Fixture): seq<Member>
  {
    [Member("requests", List(RequestsJson(f.requests))), Member("schemaVersion", Number(1)), Member("toolEvidence", TOOL_EVIDENCE)]
  }

  lemma FixtureParts(f: Fixture)
    ensures FixtureText(f) == Print(Object(Heading(f) + [Member("provenance", Object(Provenance(f)))] + Body(f)), 0) + "\n"
    ensures Provenance(f) != []
  {
    hide Heading, Print, RequestsJson, TOOL_EVIDENCE;
  }

  /** The length of the whole, by its parts. */
  lemma TextSize(f: Fixture)
    ensures |FixtureText(f)| == MembersSize(Heading(f), 1) + MembersSize(Provenance(f), 2) + |Quote("provenance")|
                                + MembersSize(Body(f), 1) + 13
  {
    hide *;
    FixtureParts(f);
    var provenance := Member("provenance", Object(Provenance(f)));
    MembersSizeAround(Heading(f), provenance, Body(f), 1);
    ObjectMember("provenance", Provenance(f), 1);
    ObjectLength(Heading(f) + [provenance] + Body(f), 0);
  }

  lemma PartsIgnoreId(f: Fixture, id: string)
    ensures Heading(f.(fixtureId := id)) == Heading(f) && Body(f.(fixtureId := id)) == Body(f)
  {
    hide RequestsJson, TOOL_EVIDENCE;
  }

  /** The printed fixture is its frame and its identifier. */
  lemma TextIsFrameAndId(f: Fixture)
    requires IsSlug(f.fixtureId)
    ensures |FixtureText(f)| == FrameSize(f) + |f.fixtureId|
  {
    hide Heading, Provenance, Body, MembersSize, Quote, FixtureText, IsSlug;
    TextSize(f);
    TextSize(f.(fixtureId := ""));
    ProvenanceSize(f);
    PartsIgnoreId(f, "");
  }

  // ---------------------------------------------------------------- everything printed is plain

  lemma PlainLength(s: string)
    requires IsPlain(s)
    ensures ByteLength(s) == |s|
  {
    hide ByteLength;
    AsciiLength(s);
  }

  /** A short plain text. */
  predicate IsToken(s: string)
  {
    IsPlain(s) && |s| <= 64
  }

  lemma FixedKinds()
    ensures IsToken("macos-product-version") && IsToken("macos-build-version") && IsToken("macos-architecture")
    ensures IsToken("default-route") && IsToken("list-network-service-order")
  {
  }

  lemma GetterKindNames()
    ensures IsToken("get-http-proxy") && IsToken("get-https-proxy") && IsToken("get-socks-proxy") && IsToken("get-auto-proxy-url")
    ensures IsToken("get-proxy-bypass-domains") && IsToken("get-proxy-auto-discovery")
  {
  }

  lemma KindToken(kind: RequestKind)
    ensures IsToken(KindName(kind))
  {
    hide IsToken;
    FixedKinds();
    GetterKindNames();
  }

  lemma FailureToken(kind: FailureKind)
    ensures IsToken(FailureName(kind))
  {
    assert IsToken("failed") && IsToken("output-too-large") && IsToken("permission-denied");
    assert IsToken("timed-out") && IsToken("unavailable");
    hide IsToken;
  }

  lemma ToolToken(tool: Tool)
    ensures IsToken(ToolName(tool))
  {
    assert IsToken("route") && IsToken("networksetup");
    hide IsToken;
  }

  lemma SourceTokens(source: SourceKind, environment: CaptureEnvironment)
    ensures IsToken(SourceName(source)) && IsToken(EnvironmentName(environment))
  {
    assert IsToken("real-tart-capture") && IsToken("synthetic-test");
    assert IsToken("disposable-tart-clone") && IsToken("repository-synthetic");
    hide IsToken;
  }

  lemma RequestKeys()
    ensures IsToken("operand") && IsToken("networkService") && IsToken("requestKind") && IsToken("result")
    ensures IsToken("kind") && IsToken("stdout") && IsToken("success") && IsToken("tool")
  {
  }

  lemma HeadingKeys()
    ensures IsToken("architecture") && IsToken("buildFamily") && IsToken("fixtureKind") && IsToken("locale")
    ensures IsToken("platformFamily") && IsToken("productVersionFamily")
  {
  }

  lemma HeadingTexts()
    ensures IsToken("C") && IsToken("macos") && IsToken("macos-command-runner-system-proxy")
  {
  }

  lemma ProvenanceKeys()
    ensures IsToken("captureEnvironment") && IsToken("capturePolicy") && IsToken("compiler") && IsToken("fixtureId")
    ensures IsToken("sanitizedTranscriptSha256") && IsToken("sourceKind") && IsToken("provenance")
  {
  }

  lemma ProvenanceTexts()
    ensures IsToken("read-only-system-proxy-v1") && IsToken("macos-platform-transcript-v1") && IsToken("")
  {
  }

  lemma BodyKeys()
    ensures IsToken("requests") && IsToken("schemaVersion") && IsToken("toolEvidence")
  {
  }

  lemma EvidenceKeys()
    ensures IsToken("identity") && IsToken("pathClass") && IsToken("versionEvidence") && IsToken("not-observable")
  {
  }

  lemma EvidenceTexts()
    ensures IsToken("networksetup") && IsToken("macos-system-networksetup") && IsToken("route") && IsToken("macos-system-route")
  {
  }

  lemma TokenMember(key: string, text: string, depth: nat)
    requires IsToken(key) && IsToken(text)
    ensures IsPlainMember(Member(key, Str(text))) && |PrintMember(Member(key, Str(text)), depth)| <= 2 * depth + 262
  {
    hide IsPlain, Quote;
    QuotePlain(key);
    QuotePlain(text);
  }

  /** A member whose value is printed within the bound. */
  lemma ValueMember(key: string, value: Json, depth: nat, bound: nat)
    requires IsToken(key) && IsPlainJson(value) && |Print(value, depth)| <= bound
    ensures IsPlainMember(Member(key, value)) && |PrintMember(Member(key, value), depth)| <= 2 * depth + 132 + bound
  {
    hide IsPlain, Quote, Print;
    QuotePlain(key);
  }

  /** Members that are plain and printed within the bound. */
  ghost predicate AreWithin(members: seq<Member>, depth: nat, bound: nat)
  {
    (forall m | m in members :: IsPlainMember(m)) && MembersSize(members, depth) <= bound
  }

  lemma WithinConcat(a: seq<Member>, b: seq<Member>, depth: nat, i: nat, j: nat)
    requires AreWithin(a, depth, i) && AreWithin(b, depth, j)
    ensures AreWithin(a + b, depth, i + j)
  {
    hide MembersSize, IsPlainMember;
    MembersSizeConcat(a, b, depth);
  }

  lemma WithinOne(m: Member, depth: nat, bound: nat)
    requires IsPlainMember(m) && |PrintMember(m, depth)| <= bound
    ensures AreWithin([m], depth, bound + 2)
  {
    OneMember(m, depth);
  }

  lemma TokenWithin(key: string, text: string, depth: nat)
    requires IsToken(key) && IsToken(text)
    ensures AreWithin([Member(key, Str(text))], depth, 2 * depth + 264)
  {
    TokenMember(key, text, depth);
    hide IsToken, IsPlainMember, PrintMember, AreWithin;
    WithinOne(Member(key, Str(text)), depth, 2 * depth + 262);
  }

  lemma WithinObject(members: seq<Member>, depth: nat, bound: nat)
    requires members != [] && AreWithin(members, depth + 1, bound)
    ensures IsPlainJson(Object(members)) && |Print(Object(members), depth)| <= bound + 2 + 2 * depth
  {
    hide IsPlainMember, MembersSize, Print;
    ObjectLength(members, depth);
    forall i | 0 <= i < |members| ensures IsPlainMember(members[i]) {
      assert members[i] in members;
    }
  }

  // ---------------------------------------------------------------- one request

  lemma OperandWithin(operand: Option<string>)
    requires operand.Some? ==> IsToken(operand.value)
    ensures IsPlainJson(OperandJson(operand)) && |Print(OperandJson(operand), 3)| <= 300
  {
    if operand.Some? {
      RequestKeys();
      hide IsToken, AreWithin, Print, IsPlainJson;
      TokenWithin("networkService", operand.value, 4);
      WithinObject([Member("networkService", Str(operand.value))], 3, 272);
    }
  }

  lemma StdoutMember(stdout: string)
    requires IsPlain(stdout)
    ensures AreWithin([Member("stdout", Str(stdout))], 4, 2 * |stdout| + 150)
  {
    RequestKeys();
    QuotePlain(stdout);
    assert |Print(Str(stdout), 4)| <= 2 * |stdout| + 2;
    assert IsPlainJson(Str(stdout));
    hide IsToken, AreWithin, Print, IsPlainJson, IsPlain, Quote, IsPlainMember;
    ValueMember("stdout", Str(stdout), 4, 2 * |stdout| + 2);
    WithinOne(Member("stdout", Str(stdout)), 4, 2 * |stdout| + 142);
    hide PrintMember;
    Widen([Member("stdout", Str(stdout))], 4, 2 * |stdout| + 144, 2 * |stdout| + 150);
  }

  lemma Widen(members: seq<Member>, depth: nat, i: nat, j: nat)
    requires AreWithin(members, depth, i) && i <= j
    ensures AreWithin(members, depth, j)
  {
    hide MembersSize, IsPlainMember;
  }

  /** The length of what a request recorded. */
  function OutputSize(result: RawResult): nat
  {
    if result.Success? then |result.stdout| else 0
  }

  lemma FailureWithin(kind: FailureKind)
    ensures IsPlainJson(ResultJson(Failure(kind))) && |Print(ResultJson(Failure(kind)), 3)| <= 450
  {
    hide IsToken, AreWithin, Print, IsPlainJson, FailureName;
    RequestKeys();
    FailureToken(kind);
    TokenWithin("kind", FailureName(kind), 4);
    WithinObject([Member("kind", Str(FailureName(kind)))], 3, 272);
  }

  lemma SuccessWithin(stdout: string)
    requires IsPlain(stdout)
    ensures IsPlainJson(ResultJson(Success(stdout))) && |Print(ResultJson(Success(stdout)), 3)| <= 2 * |stdout| + 450
  {
    hide IsToken, AreWithin, Print, IsPlainJson, IsPlain;
    RequestKeys();
    var a, b := Member("kind", Str("success")), Member("stdout", Str(stdout));
    TokenWithin("kind", "success", 4);
    StdoutMember(stdout);
    WithinConcat([a], [b], 4, 272, 2 * |stdout| + 150);
    WithinObject([a] + [b], 3, 272 + 2 * |stdout| + 150);
    assert [a] + [b] == [a, b];
  }

  lemma ResultWithin(result: RawResult)
    requires result.Success? ==> IsPlain(result.stdout)
    ensures IsPlainJson(ResultJson(result)) && |Print(ResultJson(result), 3)| <= 2 * OutputSize(result) + 450
  {
    hide IsPlainJson, Print, ResultJson, IsPlain;
    match result
    case Failure(kind) => FailureWithin(kind);
    case Success(stdout) => SuccessWithin(stdout);
  }

  lemma FourWithin(a: Member, b: Member, c: Member, d: Member, i: nat, j: nat, k: nat, l: nat)
    requires AreWithin([a], 3, i) && AreWithin([b], 3, j) && AreWithin([c], 3, k) && AreWithin([d], 3, l)
    ensures IsPlainJson(Object([a, b, c, d])) && |Print(Object([a, b, c, d]), 2)| <= i + j + k + l + 6
  {
    hide AreWithin, IsPlainJson, Print;
    WithinConcat([a], [b], 3, i, j);
    WithinConcat([a] + [b], [c], 3, i + j, k);
    WithinConcat([a] + [b] + [c], [d], 3, i + j + k, l);
    WithinObject([a] + [b] + [c] + [d], 2, i + j + k + l);
    assert [a] + [b] + [c] + [d] == [a, b, c, d];
  }

  lemma RequestWithin(r: FixtureRequest)
    requires r.operand.Some? ==> IsToken(r.operand.value)
    requires r.result.Success? ==> IsPlain(r.result.stdout)
    ensures IsPlainJson(RequestJson(r)) && |Print(RequestJson(r), 2)| <= 2 * OutputSize(r.result) + 1700
  {
    hide *;
    RequestKeys();
    KindToken(r.kind);
    ToolToken(r.tool);
    OperandWithin(r.operand);
    ResultWithin(r.result);
    var size := 2 * OutputSize(r.result) + 450;
    ValueMember("operand", OperandJson(r.operand), 3, 300);
    WithinOne(Member("operand", OperandJson(r.operand)), 3, 438);
    TokenWithin("requestKind", KindName(r.kind), 3);
    ValueMember("result", ResultJson(r.result), 3, size);
    WithinOne(Member("result", ResultJson(r.result)), 3, size + 138);
    TokenWithin("tool", ToolName(r.tool), 3);
    FourWithin(Member("operand", OperandJson(r.operand)), Member("requestKind", Str(KindName(r.kind))),
               Member("result", ResultJson(r.result)), Member("tool", Str(ToolName(r.tool))), 440, 270, size + 140, 270);
    RequestParts(r);
  }

  lemma RequestParts(r: FixtureRequest)
    ensures RequestJson(r) == Object([Member("operand", OperandJson(r.operand)), Member("requestKind", Str(KindName(r.kind))),
                                      Member("result", ResultJson(r.result)), Member("tool", Str(ToolName(r.tool)))])
  {
  }

  // ---------------------------------------------------------------- what is recorded is short

  lemma EmittedPlain(lines: seq<string>)
    requires forall line | line in lines :: IsEmitted(line)
    ensures IsPlain(Unlines(lines)) && |Unlines(lines)| <= 101 * |lines|
  {
    forall i | 0 <= i < |Unlines(lines)| ensures IsPlainChar(Unlines(lines)[i]) {
      UnlinesChars(lines, i);
    }
    hide Unlines, IsCleanLine;
    UnlinesLength(lines);
  }

  /** Request `i` has a short operand, and its output is plain and within the given length. */
  ghost predicate IsShort(r: FixtureRequest, bound: nat)
  {
    && (r.operand.Some? ==> IsToken(r.operand.value))
    && (r.result.Success? ==> IsPlain(r.result.stdout)) && OutputSize(r.result) <= bound
  }

  lemma GetterLineCount(kind: RequestKind, g: Getter, values: Naming, service: string)
    requires !g.NotAvailable? && GetterFits(kind, g) && AreNamed(GetterRequests(g), values)
    ensures |GetterLines(g, values, service)| <= if kind == BypassDomains then 64 else 4
  {
    hide NameOf, Pseudonym;
    if g.Bypass? {
      DomainLinesNamed(g.domains, values);
    }
  }

  lemma ServiceToken(n: nat)
    requires n <= 154
    ensures IsToken(Pseudonym(n, Service))
  {
    ServiceWord(n);
    hide Pseudonym;
  }

  lemma GetterShort(kind: RequestKind, g: Getter, values: Naming, n: nat)
    requires GetterFits(kind, g) && AreNamed(GetterRequests(g), values) && n <= 154
    ensures var service := Pseudonym(n, Service);
            IsShort(FixtureRequest(Some(service), kind, GetterResult(g, values, service), Networksetup),
                    if kind == BypassDomains then 6464 else 404)
  {
    hide Pseudonym, IsToken, GetterFits, AreNamed, GetterRequests, GetterLines, IsEmitted, IsPlain, Unlines, IsClosedOutput;
    ServiceToken(n);
    if !g.NotAvailable? {
      GetterClosed(kind, g, values, n);
      GetterLineCount(kind, g, values, Pseudonym(n, Service));
      EmittedPlain(GetterLines(g, values, Pseudonym(n, Service)));
    }
  }

  lemma GetterRequestShort(p: Parsed, values: Naming, i: nat)
    requires WellParsed(p) && IsSealed(RequestsOf(p), values) && i < 6
    ensures IsShort(BuildRequests(p, values)[2 + i], if i == 4 then 6464 else 404)
  {
    hide *;
    BypassPlace(i);
    SixGetters(p);
    var n := ServiceNumber(p, values);
    GetterNamed(p, values, i);
    GetterRequestAt(p, values, i);
    GetterShort(ORDER[5 + i], p.getters[i], values, n);
  }

  lemma BypassPlace(i: nat)
    requires i < 6
    ensures |ORDER| == 11 && (ORDER[5 + i] == BypassDomains <==> i == 4)
  {
  }

  lemma SixGetters(p: Parsed)
    requires WellParsed(p)
    ensures |p.getters| == 6
  {
  }

  lemma NetworkShort(device: nat, service: nat, port: nat)
    requires device <= 154 && service <= 154 && port <= 154
    ensures IsShort(FixtureRequest(None, DefaultRoute,
                      Success(Unlines(["route to: default", "interface: " + Pseudonym(device, Interface)])), RouteTool), 404)
    ensures IsShort(FixtureRequest(None, ServiceOrder, Success(Unlines(
                      ["(1) " + Pseudonym(service, Service),
                       HARDWARE_PORT + Pseudonym(port, HardwarePort) + DEVICE + Pseudonym(device, Interface) + ")"])), Networksetup), 404)
  {
    hide Pseudonym, IsEmitted, Unlines, IsClosedOutput, IsPlain;
    RouteClosed(device);
    ServiceOrderClosed(service, port, device);
    EmittedPlain(["route to: default", "interface: " + Pseudonym(device, Interface)]);
    EmittedPlain(["(1) " + Pseudonym(service, Service),
                  HARDWARE_PORT + Pseudonym(port, HardwarePort) + DEVICE + Pseudonym(device, Interface) + ")"]);
  }

  lemma NetworkRequestsShort(p: Parsed, values: Naming)
    requires WellParsed(p) && IsSealed(RequestsOf(p), values)
    ensures IsShort(BuildRequests(p, values)[0], 404) && IsShort(BuildRequests(p, values)[1], 404)
  {
    hide *;
    SixGetters(p);
    NetworkMentioned(p);
    NetworkRequestsAt(p, values);
    var device := NameIsSmall(p, values, Interface, p.interfaceName);
    var service := NameIsSmall(p, values, Service, p.service);
    var port := NameIsSmall(p, values, HardwarePort, p.hardwarePort);
    NetworkShort(device, service, port);
    NetworkRequestsAre(NameOf(values, Interface, p.interfaceName), NameOf(values, Service, p.service),
                       NameOf(values, HardwarePort, p.hardwarePort));
  }

  lemma BuiltRequestShort(p: Parsed, values: Naming, i: nat)
    requires WellParsed(p) && IsSealed(RequestsOf(p), values) && i < 8
    ensures IsShort(BuildRequests(p, values)[i], if i == 6 then 6464 else 404)
  {
    hide WellParsed, IsSealed, RequestsOf, IsShort, BuildRequests;
    if i < 2 {
      NetworkRequestsShort(p, values);
    } else {
      GetterRequestShort(p, values, i - 2);
    }
  }

  // ---------------------------------------------------------------- the whole fixture

  lemma RequestsWithin(requests: seq<FixtureRequest>)
    requires |requests| == 8 && forall i | 0 <= i < 8 :: IsShort(requests[i], if i == 6 then 6464 else 404)
    ensures IsPlainJson(List(RequestsJson(requests))) && |Print(List(RequestsJson(requests)), 1)| <= 32240
  {
    hide IsShort, RequestJson, Print, ItemsSize, IsPlainMember;
    var items := RequestsJson(requests);
    forall i | 0 <= i < 8 ensures IsPlainJson(items[i]) && |Print(items[i], 2)| <= if i == 6 then 14628 else 2508 {
      ShortRequest(requests[i], if i == 6 then 6464 else 404);
    }
    hide IsPlainJson;
    ItemsBound(items[..6], 2, 2508);
    ItemsBound(items[7..], 2, 2508);
    ItemsSizeAround(items[..6], items[6], items[7..], 2);
    assert items == items[..6] + [items[6]] + items[7..];
    ListLength(items, 1);
    PlainList(items);
  }

  lemma PlainList(items: seq<Json>)
    requires forall i | 0 <= i < |items| :: IsPlainJson(items[i])
    ensures IsPlainJson(List(items))
  {
  }

  lemma ShortRequest(r: FixtureRequest, bound: nat)
    requires IsShort(r, bound)
    ensures IsPlainJson(RequestJson(r)) && |Print(RequestJson(r), 2)| <= 2 * bound + 1700
  {
    hide IsPlainJson, Print, RequestJson, IsToken, IsPlain, OutputSize;
    RequestWithin(r);
  }

  lemma TokensWithin(keys: seq<string>, texts: seq<string>, depth: nat)
    requires |keys| == |texts| && forall i | 0 <= i < |keys| :: IsToken(keys[i]) && IsToken(texts[i])
    ensures AreWithin(TokenMembers(keys, texts), depth, |keys| * (2 * depth + 264))
    decreases |keys|
  {
    hide IsToken, AreWithin, TokenMembers;
    var unit := 2 * depth + 264;
    if keys == [] {
      NoTokens(depth);
    } else {
      var n := |keys| - 1;
      TokensWithin(keys[..n], texts[..n], depth);
      TokenWithin(keys[n], texts[n], depth);
      WithinConcat(TokenMembers(keys[..n], texts[..n]), [Member(keys[n], Str(texts[n]))], depth, n * unit, unit);
      TokenMembersNext(keys, texts);
      assert n * unit + unit == (n + 1) * unit;
    }
  }

  lemma NoTokens(depth: nat)
    ensures TokenMembers([], []) == [] && AreWithin([], depth, 0)
  {
  }

  lemma TokenMembersNext(keys: seq<string>, texts: seq<string>)
    requires |keys| == |texts| && keys != []
    ensures var n := |keys| - 1;
            TokenMembers(keys, texts) == TokenMembers(keys[..n], texts[..n]) + [Member(keys[n], Str(texts[n]))]
  {
  }

  function TokenMembers(keys: seq<string>, texts: seq<string>): (r: seq<Member>)
    requires |keys| == |texts|
    ensures |r| == |keys|
  {
    seq(|keys|, i requires 0 <= i < |keys| => Member(keys[i], Str(texts[i])))
  }

  lemma ShortTexts(f: Fixture)
    requires IsValidHeading(f)
    ensures IsToken(f.architecture) && IsToken(f.buildFamily) && IsToken(f.productVersionFamily) && IsToken(f.digest)
  {
    assert IsToken("arm64") && IsToken("x86_64");
    assert forall i | 0 <= i < 4 :: f.productVersionFamily[i] == if i < 2 then f.productVersionFamily[i] else ".x"[i - 2];
    hide IsSlug;
  }

  lemma HeadingWithin(f: Fixture)
    requires IsToken(f.architecture) && IsToken(f.buildFamily) && IsToken(f.productVersionFamily)
    ensures AreWithin(Heading(f), 1, 1596)
  {
    hide IsToken, AreWithin;
    HeadingKeys();
    HeadingTexts();
    var keys := ["architecture", "buildFamily", "fixtureKind", "locale", "platformFamily", "productVersionFamily"];
    var texts := [f.architecture, f.buildFamily, "macos-command-runner-system-proxy", "C", "macos", f.productVersionFamily];
    TokensWithin(keys, texts, 1);
    assert TokenMembers(keys, texts) == Heading(f);
  }

  lemma ProvenanceWithin(f: Fixture)
    requires IsToken(f.digest) && f.fixtureId == ""
    ensures AreWithin(Provenance(f), 2, 1608)
  {
    hide IsToken, AreWithin, SourceName, EnvironmentName;
    ProvenanceKeys();
    ProvenanceTexts();
    SourceTokens(f.sourceKind, f.captureEnvironment);
    var keys := ["captureEnvironment", "capturePolicy", "compiler", "fixtureId", "sanitizedTranscriptSha256", "sourceKind"];
    var texts := [EnvironmentName(f.captureEnvironment), "read-only-system-proxy-v1", "macos-platform-transcript-v1", "",
                  f.digest, SourceName(f.sourceKind)];
    TokensWithin(keys, texts, 2);
    assert TokenMembers(keys, texts) == Provenance(f);
  }

  lemma EvidenceWithin(tool: string, pathClass: string)
    requires IsToken(tool) && IsToken(pathClass)
    ensures IsPlainJson(ToolEvidence(tool, pathClass)) && |Print(ToolEvidence(tool, pathClass), 2)| <= 816
  {
    hide IsToken, AreWithin, Print, IsPlainJson;
    EvidenceKeys();
    var keys, texts := ["identity", "pathClass", "versionEvidence"], [tool, pathClass, "not-observable"];
    TokensWithin(keys, texts, 3);
    WithinObject(TokenMembers(keys, texts), 2, 810);
    assert ToolEvidence(tool, pathClass) == Object(TokenMembers(keys, texts));
  }

  lemma AllEvidenceWithin()
    ensures IsPlainJson(TOOL_EVIDENCE) && |Print(TOOL_EVIDENCE, 1)| <= 1648
  {
    hide IsToken, Print, ToolEvidence, ItemsSize;
    EvidenceTexts();
    var a, b := ToolEvidence("networksetup", "macos-system-networksetup"), ToolEvidence("route", "macos-system-route");
    EvidenceWithin("networksetup", "macos-system-networksetup");
    EvidenceWithin("route", "macos-system-route");
    ItemsBound([a, b], 2, 816);
    ListLength([a, b], 1);
  }

  lemma BodyWithin(f: Fixture)
    requires |f.requests| == 8 && forall i | 0 <= i < 8 :: IsShort(f.requests[i], if i == 6 then 6464 else 404)
    ensures AreWithin(Body(f), 1, 34500)
  {
    hide *;
    RequestsWithin(f.requests);
    AllEvidenceWithin();
    BodyKeys();
    OneDigit();
    var a, b, c := Member("requests", List(RequestsJson(f.requests))), Member("schemaVersion", Number(1)), Member("toolEvidence", TOOL_EVIDENCE);
    ValueMember("requests", List(RequestsJson(f.requests)), 1, 32240);
    WithinOne(a, 1, 32374);
    ValueMember("schemaVersion", Number(1), 1, 1);
    WithinOne(b, 1, 135);
    ValueMember("toolEvidence", TOOL_EVIDENCE, 1, 1648);
    WithinOne(c, 1, 1782);
    WithinConcat([a], [b], 1, 32376, 137);
    WithinConcat([a] + [b], [c], 1, 32513, 1784);
    BodyParts(f);
    Widen(Body(f), 1, 34297, 34500);
  }

  lemma OneDigit()
    ensures IsPlainJson(Number(1)) && |Print(Number(1), 1)| <= 1
  {
  }

  lemma BodyParts(f: Fixture)
    ensures Body(f) == [Member("requests", List(RequestsJson(f.requests)))] + [Member("schemaVersion", Number(1))]
                       + [Member("toolEvidence", TOOL_EVIDENCE)]
  {
    hide RequestsJson, TOOL_EVIDENCE;
  }

  /** Heading, requests and the rest, short and plain. */
  ghost predicate IsModest(f: Fixture)
  {
    IsValidHeading(f) && |f.requests| == 8 && forall i | 0 <= i < 8 :: IsShort(f.requests[i], if i == 6 then 6464 else 404)
  }

  lemma PartsWithin(f: Fixture)
    requires IsModest(f)
    ensures AreWithin(Heading(f), 1, 1596) && AreWithin(Provenance(f.(fixtureId := "")), 2, 1608) && AreWithin(Body(f), 1, 34500)
  {
    hide IsShort, IsValidHeading, IsToken, AreWithin, Heading, Provenance, Body;
    ShortTexts(f);
    HeadingWithin(f);
    ProvenanceWithin(f.(fixtureId := ""));
    BodyWithin(f);
  }

  /** Without its identifier the fixture is printed within 38,000 characters. */
  lemma FrameWithin(f: Fixture)
    requires IsModest(f)
    ensures FrameSize(f) <= 38000
  {
    hide *;
    var g := f.(fixtureId := "");
    PartsWithin(f);
    PartsIgnoreId(f, "");
    WithinSize(Heading(f), 1, 1596);
    WithinSize(Provenance(g), 2, 1608);
    WithinSize(Body(f), 1, 34500);
    ProvenanceKeys();
    TokenQuote("provenance");
    TextSize(g);
    FrameIs(f);
  }

  lemma TokenQuote(s: string)
    requires IsToken(s)
    ensures |Quote(s)| <= 130
  {
    hide IsPlain, Quote;
    QuotePlain(s);
  }

  lemma FrameIs(f: Fixture)
    ensures FrameSize(f) == |FixtureText(f.(fixtureId := ""))|
  {
  }

  lemma WithinSize(members: seq<Member>, depth: nat, bound: nat)
    requires AreWithin(members, depth, bound)
    ensures MembersSize(members, depth) <= bound && forall m | m in members :: IsPlainMember(m)
  {
  }

  lemma ProvenancePlain(f: Fixture)
    requires IsSlug(f.fixtureId) && forall m | m in Provenance(f.(fixtureId := "")) :: IsPlainMember(m)
    ensures forall m | m in Provenance(f) :: IsPlainMember(m)
  {
    SlugVerbatim(f.fixtureId);
    ProvenanceKeys();
    var g := f.(fixtureId := "");
    forall i | 0 <= i < 6 ensures IsPlainMember(Provenance(f)[i]) {
      assert Provenance(g)[i] in Provenance(g);
      assert i != 3 ==> Provenance(f)[i] == Provenance(g)[i];
    }
  }

  lemma PlainObject(members: seq<Member>)
    requires forall m | m in members :: IsPlainMember(m)
    ensures IsPlainJson(Object(members))
  {
    hide IsPlainMember;
    forall i | 0 <= i < |members| ensures IsPlainMember(members[i]) {
      assert members[i] in members;
    }
  }

  lemma PlainEnd(s: string)
    requires IsPlain(s)
    ensures IsPlain(s + "\n")
  {
  }

  lemma ModestSlug(f: Fixture)
    requires IsModest(f)
    ensures IsSlug(f.fixtureId)
  {
    hide IsSlug, IsShort, IsHexDigest;
  }

  /** The fixture is printed in plain characters, so its size in bytes is its length. */
  lemma FixturePlain(f: Fixture)
    requires IsModest(f)
    ensures IsSlug(f.fixtureId) && IsPlain(FixtureText(f))
  {
    hide *;
    ModestSlug(f);
    PartsWithin(f);
    WithinSize(Heading(f), 1, 1596);
    WithinSize(Provenance(f.(fixtureId := "")), 2, 1608);
    WithinSize(Body(f), 1, 34500);
    ProvenancePlain(f);
    PlainObject(Provenance(f));
    PlainProvenance(Object(Provenance(f)));
    var all := Heading(f) + [Member("provenance", Object(Provenance(f)))] + Body(f);
    PlainObject(all);
    PrintPlain(Object(all), 0);
    FixtureParts(f);
    PlainEnd(Print(Object(all), 0));
  }

  lemma PlainProvenance(value: Json)
    requires IsPlainJson(value)
    ensures IsPlainMember(Member("provenance", value))
  {
    hide IsPlain;
    ProvenanceKeys();
  }

  /** The bytes of a printed fixture: its frame, and one for every character of its identifier. */
  lemma FixtureBytes(f: Fixture)
    requires IsModest(f)
    ensures ByteLength(FixtureText(f)) == FrameSize(f) + |f.fixtureId|
  {
    hide IsModest, FixtureText, FrameSize, IsSlug, IsPlain, ByteLength;
    FixturePlain(f);
    PlainLength(FixtureText(f));
    TextIsFrameAndId(f);
  }

  lemma BuiltIsModest(platform: Platform, options: Options, p: Parsed, values: Naming)
    requires WellParsed(p) && IsSealed(RequestsOf(p), values)
    requires IsSlug(options.fixtureId) && forall text :: IsHexDigest(platform.sha256(text))
    ensures IsModest(BuildFixture(platform, options, p, values))
  {
    BuiltHeadingValid(platform, options, p, values);
    hide IsSealed, RequestsOf, IsShort, IsSlug, IsHexDigest, IsValidHeading, BuildRequests, GetterFits, IsProductVersion, IsBuildVersion;
    forall i | 0 <= i < 8 ensures IsShort(BuildRequests(p, values)[i], if i == 6 then 6464 else 404) {
      BuiltRequestShort(p, values, i);
    }
  }

  /**
    Compiler and validator agree on every accepted transcript, exactly up to the length of the chosen
    identifier: the fixture is valid if and only if the identifier fits into what its frame leaves of
    65,536 bytes. The frame never takes more than 38,000, so every identifier of at most 27,536
    characters is fine, and none of more than 65,536 is.
   */
  lemma FixtureIsValidExactly(platform: Platform, options: Options, raw: seq<RawRecord>, values: Naming)
    requires forall text :: IsHexDigest(platform.sha256(text))
    requires ParseTranscript(platform, options, raw).Ok?
    requires IsSealed(RequestsOf(ParseTranscript(platform, options, raw).value), values)
    ensures var p := ParseTranscript(platform, options, raw).value;
            && WellParsed(p)
            && var f := BuildFixture(platform, options, p, values);
            && (IsValidFixture(platform, f) <==> FrameSize(f) + |options.fixtureId| <= 65536)
            && (|options.fixtureId| <= 27536 ==> IsValidFixture(platform, f))
            && (|options.fixtureId| > 65536 ==> !IsValidFixture(platform, f))
  {
    hide ParseTranscript, IsSealed, RequestsOf, IsHexDigest, IsValidFixture, BuildRequests, GetterFits, FrameSize, FixtureText,
         ByteLength, IsModest, IsSlug, IsProductVersion, IsBuildVersion, Digest;
    var p := ParseTranscript(platform, options, raw).value;
    TranscriptParsed(platform, options, raw);
    FixtureIsValid(platform, options, raw, values);
    var f := BuildFixture(platform, options, p, values);
    BuiltIsModest(platform, options, p, values);
    FixtureBytes(f);
    FrameWithin(f);
  }
}
