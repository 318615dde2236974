/**
 User data for the PodVM: `generateUserData` and `sourceWorkloadReference` in provider.go.
 JSON documents are trees; parsing, printing and the final cloud-config rendering are
 parameters.
 */
module UserDataRewrite {
  import opened Objects
  import opened Decimal

  /** Numbers are the reals behind Go's float64. */
  datatype Json =
    | Null
    | Bool(flag: bool)
    | Number(number: real)
    | String(text: string)
    | Array(items: seq<Json>)
    | Object(fields: map<string, Json>)

  /** `render` may fail, and `parse` fails on text that is not JSON. */
  datatype Codec = Codec(parse: string -> Option<Json>, render: Json -> Option<string>)

  /** `attributes` stands for owner, permissions and encoding. */
  datatype WriteFile = WriteFile(path: string, content: string, attributes: map<string, string>)

  datatype Error = Unparsable | NoPodNetwork | NoNumericMTU | Unprintable | NoForwarder | Ungenerated

  datatype Result<+T> = Ok(value: T) | Err(error: Error)

  const FORWARDER_PATH := "/run/peerpod/apf.json"
  const ORDERING_PATH := "/etc/systemd/system/agent-protocol-forwarder.service.d/ordering.conf"
  const PROXY_PATH := "/etc/systemd/system/confidential-data-hub.service.d/proxy.conf"
  const POD_NETWORK := "pod-network"
  const MTU := "mtu"
  const POD_NAME := "pod-name"
  const POD_NAMESPACE := "pod-namespace"
  const POD_UID := "pod-uid"

  /** The two files that are appended: service ordering first, then the proxy settings. */
  function DropIns(ordering: string, proxy: string): seq<WriteFile> {
    [WriteFile(ORDERING_PATH, ordering, map[]), WriteFile(PROXY_PATH, proxy, map[])]
  }

  predicate IsForwarder(f: WriteFile) {
    f.path == FORWARDER_PATH
  }

  // ------------------------------------------------------------------ one document

  /** Conversion of a float to an integer drops the fraction. */
  function Truncate(x: real): int {
    if x >= 0.0 then x.Floor else -(-x).Floor
  }

  function Capped(mtu: real, cap: int): real {
    if Truncate(mtu) > cap then cap as real else mtu
  }

  function Min(a: int, b: int): int {
    if a <= b then a else b
  }

  predicate HasNetwork(doc: Json) {
    doc.Object? && POD_NETWORK in doc.fields && doc.fields[POD_NETWORK].Object?
  }

  predicate HasMtu(doc: Json) {
    && HasNetwork(doc)
    && MTU in doc.fields[POD_NETWORK].fields && doc.fields[POD_NETWORK].fields[MTU].Number?
  }

  function MtuOf(doc: Json): real
    requires HasMtu(doc)
  {
    doc.fields[POD_NETWORK].fields[MTU].number
  }

  function WithMtu(doc: Json, mtu: real): Json
    requires HasMtu(doc)
  {
    var network := doc.fields[POD_NETWORK];
    Object(doc.fields[POD_NETWORK := Object(network.fields[MTU := Number(mtu)])])
  }

  /** A text that decodes into a map; `null` decodes into an empty one. */
  function ParseDocument(codec: Codec, content: string): Result<Json> {
    match codec.parse(content)
    case Some(Object(fields)) => Ok(Object(fields))
    case Some(Null) => Ok(Null)
    case _ => Err(Unparsable)
  }

  function CapDocument(doc: Json, cap: int): Result<Json> {
    if !HasNetwork(doc) then Err(NoPodNetwork)
    else if !HasMtu(doc) then Err(NoNumericMTU)
    else Ok(WithMtu(doc, Capped(MtuOf(doc), cap)))
  }

  function CapContent(codec: Codec, content: string, cap: int): Result<string> {
    match ParseDocument(codec, content)
    case Err(e) => Err(e)
    case Ok(doc) =>
      match CapDocument(doc, cap)
      case Err(e) => Err(e)
      case Ok(capped) =>
        match codec.render(capped)
        case None => Err(Unprintable)
        case Some(text) => Ok(text)
  }

  // ------------------------------------------------------------------ all files

  function CapFile(codec: Codec, f: WriteFile, cap: int): Result<WriteFile> {
    if !IsForwarder(f) then Ok(f)
    else
      match CapContent(codec, f.content, cap)
      case Err(e) => Err(e)
      case Ok(text) => Ok(f.(content := text))
  }

  /** The files after the loop, or the error of the first file that stops it. */
  function CapFiles(codec: Codec, files: seq<WriteFile>, cap: int): Result<seq<WriteFile>> {
    if files == [] then Ok([])
    else
      match CapFiles(codec, files[..|files| - 1], cap)
      case Err(e) => Err(e)
      case Ok(done) =>
        match CapFile(codec, files[|files| - 1], cap)
        case Err(e) => Err(e)
        case Ok(f) => Ok(done + [f])
  }

  /** Content of the last forwarder file, empty when there is none. */
  function LastForwarder(files: seq<WriteFile>): string {
    if files == [] then ""
    else if IsForwarder(files[|files| - 1]) then files[|files| - 1].content
    else LastForwarder(files[..|files| - 1])
  }

  function Adjusted(codec: Codec, files: seq<WriteFile>, cap: int, dropIns: seq<WriteFile>): Result<seq<WriteFile>> {
    match CapFiles(codec, files, cap)
    case Err(e) => Err(e)
    case Ok(capped) => if LastForwarder(capped) == "" then Err(NoForwarder) else Ok(capped + dropIns)
  }

  /**
   The rewrite loop over a copy of the input list; the input array is not in any modifies
   clause.
   */
  method AdjustFiles(codec: Codec, files: array<WriteFile>, cap: int, dropIns: seq<WriteFile>)
    returns (r: Result<seq<WriteFile>>)
    ensures r == Adjusted(codec, files[..], cap, dropIns)
  {
    hide CapFiles, LastForwarder;
    var adjusted := new WriteFile[files.Length](i reads files requires 0 <= i < files.Length => files[i]);
    NoFiles(codec, cap);
    assert files[..0] == [] && adjusted[..0] == [];
    var apfConfig := "";
    for i := 0 to adjusted.Length
      invariant forall j :: i <= j < adjusted.Length ==> adjusted[j] == files[j]
      invariant CapFiles(codec, files[..i], cap) == Ok(adjusted[..i])
      invariant apfConfig == LastForwarder(adjusted[..i])
    {
      assert files[..][..i] == files[..i] && files[..][..i + 1] == files[..i + 1];
      ghost var done := adjusted[..i];
      CapFilesStep(codec, files[..], cap, i);
      if IsForwarder(adjusted[i]) {
        var parsed := ParseDocument(codec, adjusted[i].content);
        if parsed.Err? {
          return Err(parsed.error);
        }
        var document := parsed.value;
        if !HasNetwork(document) {
          return Err(NoPodNetwork);
        }
        if !HasMtu(document) {
          return Err(NoNumericMTU);
        }
        var current := MtuOf(document);
        var mtu := current;
        if Truncate(current) > cap {
          mtu := cap as real;
        }
        var encoded := codec.render(WithMtu(document, mtu));
        if encoded.None? {
          return Err(Unprintable);
        }
        adjusted[i] := adjusted[i].(content := encoded.value);
        apfConfig := encoded.value;
      }
      assert adjusted[..i + 1] == done + [adjusted[i]];
      LastForwarderStep(done, adjusted[i]);
    }
    assert files[..files.Length] == files[..] && adjusted[..adjusted.Length] == adjusted[..];
    if |apfConfig| == 0 {
      return Err(NoForwarder);
    }
    return Ok(adjusted[..] + dropIns);
  }

  /** One more file, as the loop treats it. */
  lemma CapFilesStep(codec: Codec, files: seq<WriteFile>, cap: int, i: nat)
    requires i < |files| && CapFiles(codec, files[..i], cap).Ok?
    ensures
      match CapFile(codec, files[i], cap)
      case Ok(f) => CapFiles(codec, files[..i + 1], cap) == Ok(CapFiles(codec, files[..i], cap).value + [f])
      case Err(e) => CapFiles(codec, files, cap) == Err(e)
  {
    assert files[..i + 1][..i] == files[..i];
    if CapFile(codec, files[i], cap).Err? {
      CapFilesPrefixError(codec, files, cap, i + 1);
    }
  }

  lemma NoFiles(codec: Codec, cap: int)
    ensures CapFiles(codec, [], cap) == Ok([]) && LastForwarder([]) == ""
  {
  }

  lemma LastForwarderStep(files: seq<WriteFile>, f: WriteFile)
    ensures LastForwarder(files + [f]) == if IsForwarder(f) then f.content else LastForwarder(files)
  {
    assert (files + [f])[..|files|] == files;
  }

  /** An error in a prefix is the error of the whole. */
  lemma {:induction false} CapFilesPrefixError(codec: Codec, files: seq<WriteFile>, cap: int, i: nat)
    requires i <= |files| && CapFiles(codec, files[..i], cap).Err?
    ensures CapFiles(codec, files, cap) == CapFiles(codec, files[..i], cap)
  {
    if i < |files| {
      assert files[..|files| - 1][..i] == files[..i];
      CapFilesPrefixError(codec, files[..|files| - 1], cap, i);
    } else {
      assert files[..i] == files;
    }
  }

  /**
   `generateUserData`: any other generator, or no positive MTU, is rendered as it is.
   `generate` renders a cloud-config with the given files; `ordering` and `proxy` are the texts
   of the two drop-ins.
   */
  method GenerateUserData(
    codec: Codec, isCloudConfig: bool, files: array<WriteFile>, networkMTU: int, ordering: string, proxy: string,
    generate: seq<WriteFile> -> Result<string>)
    returns (r: Result<string>)
    ensures !isCloudConfig || networkMTU <= 0 ==> r == generate(files[..])
    ensures isCloudConfig && networkMTU > 0 ==>
      match Adjusted(codec, files[..], networkMTU, [
        WriteFile("/etc/systemd/system/agent-protocol-forwarder.service.d/ordering.conf", ordering, map[]),
        WriteFile("/etc/systemd/system/confidential-data-hub.service.d/proxy.conf", proxy, map[])])
      case Ok(adjusted) => r == generate(adjusted)
      case Err(e) => r == Err(e)
  {
    if !isCloudConfig || networkMTU <= 0 {
      return generate(files[..]);
    }
    var adjusted := AdjustFiles(codec, files, networkMTU, DropIns(ordering, proxy));
    if adjusted.Err? {
      return Err(adjusted.error);
    }
    return generate(adjusted.value);
  }

  // ------------------------------------------------------------------ what the rewrite promises

  /** Some text parses into the document. */
  ghost predicate Representable(codec: Codec, doc: Json) {
    exists text :: codec.parse(text) == Some(doc)
  }

  /** Printing the document succeeds, yields some text, and parsing reads it back. */
  predicate ReadsBack(codec: Codec, doc: Json) {
    codec.render(doc).Some? && codec.render(doc).value != "" && codec.parse(codec.render(doc).value) == Some(doc)
  }

  function WithCap(doc: Json, cap: int): Json
    requires HasMtu(doc)
  {
    WithMtu(doc, cap as real)
  }

  /** Documents that have a text survive printing, and still have one with the cap as MTU. */
  ghost predicate Faithful(codec: Codec, cap: int) {
    && (forall doc :: Representable(codec, doc) ==> ReadsBack(codec, doc))
    && (forall doc :: Representable(codec, doc) && HasMtu(doc) ==> Representable(codec, WithCap(doc, cap)))
  }

  /** A capped document can be printed and read back. */
  lemma CappedReadsBack(codec: Codec, content: string, cap: int)
    requires Faithful(codec, cap) && WellFormed(codec, content)
    ensures
      var doc := codec.parse(content).value;
      ReadsBack(codec, WithMtu(doc, Capped(MtuOf(doc), cap)))
  {
    var doc := codec.parse(content).value;
    assert Representable(codec, doc);
    if Capped(MtuOf(doc), cap) == MtuOf(doc) {
      var network := doc.fields[POD_NETWORK];
      assert network.fields[MTU := Number(MtuOf(doc))] == network.fields;
      assert WithMtu(doc, MtuOf(doc)).fields == doc.fields;
    } else {
      assert Representable(codec, WithCap(doc, cap));
    }
  }

  /** A forwarder configuration with a numeric MTU. */
  predicate WellFormed(codec: Codec, content: string) {
    codec.parse(content).Some? && HasMtu(codec.parse(content).value)
  }

  function NetworkOnly(n: int): Json {
    Object(map[POD_NETWORK := Object(map[MTU := Number(n as real)])])
  }

  /** The text of a document is its MTU in decimal. */
  function DecimalCodec(): Codec {
    Codec(
      text => match Parse(text) case Some(n) => Some(NetworkOnly(n)) case None => None,
      doc => if HasMtu(doc) then Some(Format(MtuOf(doc).Floor)) else None)
  }

  lemma DecimalReadsBack(n: int)
    ensures HasMtu(NetworkOnly(n))
    ensures DecimalCodec().parse(Format(n)) == Some(NetworkOnly(n)) && ReadsBack(DecimalCodec(), NetworkOnly(n))
  {
    FormatRoundTrip(n);
    assert MtuOf(NetworkOnly(n)).Floor == n;
  }

  lemma NetworkOnlyWithCap(n: int, cap: int)
    ensures WithCap(NetworkOnly(n), cap) == NetworkOnly(cap)
  {
    assert map[MTU := Number(n as real)][MTU := Number(cap as real)] == map[MTU := Number(cap as real)];
    assert WithCap(NetworkOnly(n), cap).fields == NetworkOnly(cap).fields;
  }

  /** A faithful codec with forwarder configurations of every integer MTU exists. */
  lemma DecimalCodecIsFaithful(n: int)
    ensures forall cap :: Faithful(DecimalCodec(), cap)
    ensures WellFormed(DecimalCodec(), Format(n))
  {
    var codec := DecimalCodec();
    DecimalReadsBack(n);
    forall doc | Representable(codec, doc)
      ensures ReadsBack(codec, doc)
      ensures forall cap :: HasMtu(doc) ==> Representable(codec, WithCap(doc, cap))
    {
      var text :| codec.parse(text) == Some(doc);
      var m := Parse(text).value;
      DecimalReadsBack(m);
      forall cap
        ensures Representable(codec, WithCap(NetworkOnly(m), cap))
      {
        NetworkOnlyWithCap(m, cap);
        DecimalReadsBack(cap);
      }
    }
  }

  lemma CapFileOkIff(codec: Codec, f: WriteFile, cap: int)
    requires Faithful(codec, cap)
    ensures CapFile(codec, f, cap).Ok? <==> (IsForwarder(f) ==> WellFormed(codec, f.content))
    ensures CapFile(codec, f, cap).Ok? && IsForwarder(f) ==>
      var doc := codec.parse(f.content).value;
      var capped := WithMtu(doc, Capped(MtuOf(doc), cap));
      && ReadsBack(codec, capped)
      && CapFile(codec, f, cap).value == f.(content := codec.render(capped).value)
  {
    if WellFormed(codec, f.content) {
      CappedReadsBack(codec, f.content, cap);
    }
  }

  /** The loop succeeds exactly when every file does, and then acts on each file separately. */
  lemma {:induction false} CapFilesPointwise(codec: Codec, files: seq<WriteFile>, cap: int)
    ensures CapFiles(codec, files, cap).Ok? <==> forall i :: 0 <= i < |files| ==> CapFile(codec, files[i], cap).Ok?
    ensures CapFiles(codec, files, cap).Ok? ==>
      && |CapFiles(codec, files, cap).value| == |files|
      && forall i :: 0 <= i < |files| ==> CapFile(codec, files[i], cap) == Ok(CapFiles(codec, files, cap).value[i])
  {
    if files != [] {
      var last := |files| - 1;
      CapFilesPointwise(codec, files[..last], cap);
      assert forall i :: 0 <= i < last ==> files[..last][i] == files[i];
      if CapFiles(codec, files, cap).Ok? {
        var done := CapFiles(codec, files[..last], cap).value;
        assert CapFiles(codec, files, cap).value == done + [CapFile(codec, files[last], cap).value];
        assert forall i :: 0 <= i < last ==> CapFiles(codec, files, cap).value[i] == done[i];
      }
    }
  }

  /** Why a forwarder file is refused, over the document it holds. */
  lemma CapFileErrs(codec: Codec, f: WriteFile, cap: int)
    requires f.path == "/run/peerpod/apf.json"
    ensures
      var r, doc := CapFile(codec, f, cap), codec.parse(f.content);
      var parsed := doc.Some? && doc.value.Object?;
      var network := parsed && "pod-network" in doc.value.fields && doc.value.fields["pod-network"].Object?;
      var numeric :=
        && network && "mtu" in doc.value.fields["pod-network"].fields
        && doc.value.fields["pod-network"].fields["mtu"].Number?;
      && (r == Err(Unparsable) <==> !parsed && (doc.Some? ==> !doc.value.Null?))
      && (r == Err(NoPodNetwork) <==> (parsed && !network) || (doc.Some? && doc.value.Null?))
      && (r == Err(NoNumericMTU) <==> network && !numeric)
      && (r.Ok? ==> numeric) && (r.Err? && numeric ==> r == Err(Unprintable))
  {
  }

  /** The rewrite fails with the error of the first file that is refused. */
  lemma {:induction false} FirstErrorWins(codec: Codec, files: seq<WriteFile>, cap: int, i: nat, e: Error)
    requires i < |files| && CapFile(codec, files[i], cap) == Err(e)
    requires forall j :: 0 <= j < i ==> CapFile(codec, files[j], cap).Ok?
    ensures CapFiles(codec, files, cap) == Err(e)
    decreases |files|
  {
    var last := |files| - 1;
    if i < last {
      assert forall j :: 0 <= j < last ==> files[..last][j] == files[j];
      FirstErrorWins(codec, files[..last], cap, i, e);
    } else {
      CapFilesPointwise(codec, files[..last], cap);
      assert forall j :: 0 <= j < last ==> files[..last][j] == files[j];
    }
  }

  lemma {:induction false} LastForwarderFound(files: seq<WriteFile>)
    requires forall i :: 0 <= i < |files| && IsForwarder(files[i]) ==> files[i].content != ""
    ensures LastForwarder(files) != "" <==> exists i :: 0 <= i < |files| && IsForwarder(files[i])
  {
    if files != [] && !IsForwarder(files[|files| - 1]) {
      var rest := files[..|files| - 1];
      assert forall i :: 0 <= i < |rest| ==> rest[i] == files[i];
      LastForwarderFound(rest);
    }
  }

  /** The rewrite succeeds exactly when there is a forwarder file and all of them are well formed. */
  lemma AdjustsExactlyWellFormed(codec: Codec, files: seq<WriteFile>, cap: int, dropIns: seq<WriteFile>)
    requires Faithful(codec, cap)
    ensures Adjusted(codec, files, cap, dropIns).Ok? <==>
      && (exists i :: 0 <= i < |files| && IsForwarder(files[i]))
      && (forall i :: 0 <= i < |files| && IsForwarder(files[i]) ==> WellFormed(codec, files[i].content))
  {
    CapFilesPointwise(codec, files, cap);
    forall i | 0 <= i < |files|
      ensures CapFile(codec, files[i], cap).Ok? <==> (IsForwarder(files[i]) ==> WellFormed(codec, files[i].content))
      ensures CapFile(codec, files[i], cap).Ok? ==>
        IsForwarder(CapFile(codec, files[i], cap).value) == IsForwarder(files[i])
      ensures CapFile(codec, files[i], cap).Ok? && IsForwarder(files[i]) ==>
        CapFile(codec, files[i], cap).value.content != ""
    {
      CapFileOkIff(codec, files[i], cap);
    }
    if CapFiles(codec, files, cap).Ok? {
      var capped := CapFiles(codec, files, cap).value;
      assert forall i :: 0 <= i < |files| ==> CapFile(codec, files[i], cap) == Ok(capped[i]);
      LastForwarderFound(capped);
      if i :| 0 <= i < |files| && IsForwarder(files[i]) {
        assert IsForwarder(capped[i]);
      }
    }
  }

  /** The documents agree everywhere except at the MTU of the pod network, which is `mtu` in the second. */
  ghost predicate SameButMtu(doc: Json, doc': Json, mtu: real) {
    && HasMtu(doc) && HasMtu(doc') && MtuOf(doc') == mtu
    && doc.fields - {POD_NETWORK} == doc'.fields - {POD_NETWORK}
    && doc.fields[POD_NETWORK].fields - {MTU} == doc'.fields[POD_NETWORK].fields - {MTU}
  }

  /**
   A successful rewrite keeps the number, order, path and attributes of the files, the content
   of every other file and every other field of a forwarder document; it caps each MTU and
   appends the drop-ins.
   */
  lemma AdjustPreservesTheRest(codec: Codec, files: seq<WriteFile>, cap: int, dropIns: seq<WriteFile>)
    requires Faithful(codec, cap) && Adjusted(codec, files, cap, dropIns).Ok?
    ensures
      var r := Adjusted(codec, files, cap, dropIns).value;
      && |r| == |files| + |dropIns| && r[|files|..] == dropIns
      && forall i :: 0 <= i < |files| ==>
        && r[i].path == files[i].path && r[i].attributes == files[i].attributes
        && (!IsForwarder(files[i]) ==> r[i] == files[i])
        && (IsForwarder(files[i]) ==>
              && codec.parse(files[i].content).Some? && HasMtu(codec.parse(files[i].content).value)
              && codec.parse(r[i].content).Some?
              && var doc := codec.parse(files[i].content).value;
                 SameButMtu(doc, codec.parse(r[i].content).value, Capped(MtuOf(doc), cap)))
  {
    CapFilesPointwise(codec, files, cap);
    var r := Adjusted(codec, files, cap, dropIns).value;
    var capped := CapFiles(codec, files, cap).value;
    forall i | 0 <= i < |files|
      ensures r[i] == capped[i] && CapFile(codec, files[i], cap) == Ok(capped[i])
      ensures IsForwarder(files[i]) ==>
        && WellFormed(codec, files[i].content) && codec.parse(r[i].content).Some?
        && var doc := codec.parse(files[i].content).value;
           SameButMtu(doc, codec.parse(r[i].content).value, Capped(MtuOf(doc), cap))
    {
      CapFileOkIff(codec, files[i], cap);
      if IsForwarder(files[i]) {
        var doc := codec.parse(files[i].content).value;
        WithMtuIsLocal(doc, Capped(MtuOf(doc), cap));
      }
    }
  }

  lemma WithMtuIsLocal(doc: Json, mtu: real)
    requires HasMtu(doc)
    ensures SameButMtu(doc, WithMtu(doc, mtu), mtu)
  {
    var doc' := WithMtu(doc, mtu);
    assert doc.fields - {POD_NETWORK} == doc'.fields - {POD_NETWORK};
    assert doc.fields[POD_NETWORK].fields - {MTU} == doc'.fields[POD_NETWORK].fields - {MTU};
  }

  /**
   The new MTU is the smaller of MTU and cap exactly when the MTU does not lie strictly between
   the cap and the next integer; in particular for every integer MTU.
   */
  lemma CappedIsMinimumIff(mtu: real, cap: int)
    requires cap > 0
    ensures
      Capped(mtu, cap) == (if mtu <= cap as real then mtu else cap as real)
      <==> !(cap as real < mtu < cap as real + 1.0)
    ensures mtu.Floor as real == mtu ==> Capped(mtu, cap) == if mtu <= cap as real then mtu else cap as real
  {
  }

  /** An MTU of 1400.5 survives a cap of 1400. */
  lemma FractionalMtuExceedsCap()
    ensures Capped(1400.5, 1400) > 1400.0
  {
    assert (1400.5).Floor == 1400;
  }

  lemma CappedTwice(mtu: real, a: int, b: int)
    requires a > 0 && b > 0
    ensures Capped(Capped(mtu, a), b) == Capped(mtu, Min(a, b))
  {
    assert (a as real).Floor == a;
  }

  /** Capping twice is capping once by the smaller cap, for the whole list of files. */
  lemma CapFilesComposes(codec: Codec, files: seq<WriteFile>, a: int, b: int)
    requires Faithful(codec, a) && Faithful(codec, b) && a > 0 && b > 0
    ensures
      match CapFiles(codec, files, a)
      case Ok(once) => CapFiles(codec, once, b) == CapFiles(codec, files, Min(a, b))
      case Err(e) => CapFiles(codec, files, Min(a, b)).Err?
  {
    CapFilesPointwise(codec, files, a);
    CapFilesPointwise(codec, files, Min(a, b));
    forall i | 0 <= i < |files|
      ensures CapFile(codec, files[i], a).Ok? <==> CapFile(codec, files[i], Min(a, b)).Ok?
      ensures CapFile(codec, files[i], a).Ok? ==>
        CapFile(codec, CapFile(codec, files[i], a).value, b) == CapFile(codec, files[i], Min(a, b))
    {
      CapFileComposes(codec, files[i], a, b);
    }
    if CapFiles(codec, files, a).Ok? {
      var once := CapFiles(codec, files, a).value;
      CapFilesPointwise(codec, once, b);
      assert forall i :: 0 <= i < |files| ==> CapFile(codec, files[i], a) == Ok(once[i]);
      var twice, direct := CapFiles(codec, once, b).value, CapFiles(codec, files, Min(a, b)).value;
      assert forall i :: 0 <= i < |files| ==>
        CapFile(codec, once[i], b) == Ok(twice[i]) && CapFile(codec, files[i], Min(a, b)) == Ok(direct[i]);
      assert twice == direct;
    }
  }

  lemma WithMtuTwice(doc: Json, a: real, b: real)
    requires HasMtu(doc)
    ensures WithMtu(WithMtu(doc, a), b) == WithMtu(doc, b)
  {
    var inner := doc.fields[POD_NETWORK].fields;
    var once := WithMtu(doc, a);
    assert once.fields[POD_NETWORK].fields[MTU := Number(b)] == inner[MTU := Number(b)];
    assert once.fields[POD_NETWORK := Object(inner[MTU := Number(b)])] ==
      doc.fields[POD_NETWORK := Object(inner[MTU := Number(b)])];
  }

  lemma CapFileComposes(codec: Codec, f: WriteFile, a: int, b: int)
    requires Faithful(codec, a) && Faithful(codec, b) && a > 0 && b > 0
    ensures CapFile(codec, f, a).Ok? <==> CapFile(codec, f, Min(a, b)).Ok?
    ensures CapFile(codec, f, a).Ok? ==> CapFile(codec, CapFile(codec, f, a).value, b) == CapFile(codec, f, Min(a, b))
  {
    CapFileOkIff(codec, f, a);
    CapFileOkIff(codec, f, Min(a, b));
    if IsForwarder(f) && WellFormed(codec, f.content) {
      var doc := codec.parse(f.content).value;
      var once := WithMtu(doc, Capped(MtuOf(doc), a));
      var f' := CapFile(codec, f, a).value;
      assert codec.parse(f'.content) == Some(once);
      CapFileOkIff(codec, f', b);
      CappedTwice(MtuOf(doc), a, b);
      WithMtuTwice(doc, Capped(MtuOf(doc), a), Capped(MtuOf(once), b));
    }
  }

  // ------------------------------------------------------------------ the source workload

  /** Decoding into a string field: absent and null leave it empty, any other type is an error. */
  function StringField(fields: map<string, Json>, key: string): Option<string> {
    if key !in fields || fields[key].Null? then Some("")
    else if fields[key].String? then Some(fields[key].text)
    else None
  }

  function DecodeReference(doc: Option<Json>, fallback: string): WorkloadRef {
    var default := WorkloadRef("", fallback, "");
    if doc.None? || !doc.value.Object? then default
    else
      var name := StringField(doc.value.fields, POD_NAME);
      var namespace := StringField(doc.value.fields, POD_NAMESPACE);
      var uid := StringField(doc.value.fields, POD_UID);
      if name.None? || namespace.None? || uid.None? then default
      else WorkloadRef(namespace.value, if name.value != "" then name.value else fallback, uid.value)
  }

  /** The reference in the first forwarder file. */
  function SourceReference(codec: Codec, files: seq<WriteFile>, fallback: string): WorkloadRef {
    if files == [] then WorkloadRef("", fallback, "")
    else if IsForwarder(files[0]) then DecodeReference(codec.parse(files[0].content), fallback)
    else SourceReference(codec, files[1..], fallback)
  }

  method SourceWorkloadReference(codec: Codec, isCloudConfig: bool, files: array<WriteFile>, fallback: string)
    returns (reference: WorkloadRef)
    ensures reference == if isCloudConfig then SourceReference(codec, files[..], fallback)
      else WorkloadRef("", fallback, "")
  {
    reference := WorkloadRef("", fallback, "");
    if !isCloudConfig {
      return;
    }
    for i := 0 to files.Length
      invariant reference == WorkloadRef("", fallback, "")
      invariant SourceReference(codec, files[..], fallback) == SourceReference(codec, files[i..], fallback)
    {
      if IsForwarder(files[i]) {
        return DecodeReference(codec.parse(files[i].content), fallback);
      }
      assert files[i..][1..] == files[i + 1..];
    }
  }

  /** A field that is absent or null, or a string: the text it reads as. */
  predicate ReadsAs(fields: map<string, Json>, key: string, text: string) {
    if key in fields && !fields[key].Null? then fields[key] == String(text) else text == ""
  }

  /** Position `i` holds the first forwarder file. */
  predicate FirstForwarder(files: seq<WriteFile>, i: nat) {
    && i < |files| && files[i].path == "/run/peerpod/apf.json"
    && forall j :: 0 <= j < i ==> files[j].path != "/run/peerpod/apf.json"
  }

  lemma {:induction false} SourceReferenceOfFirst(codec: Codec, files: seq<WriteFile>, fallback: string, i: nat)
    requires FirstForwarder(files, i)
    ensures SourceReference(codec, files, fallback) == DecodeReference(codec.parse(files[i].content), fallback)
  {
    if i > 0 {
      assert forall j :: 0 <= j < i - 1 ==> files[1..][j] == files[j + 1];
      SourceReferenceOfFirst(codec, files[1..], fallback, i - 1);
    }
  }

  lemma {:induction false} SourceReferenceOfNone(codec: Codec, files: seq<WriteFile>, fallback: string)
    requires forall i :: 0 <= i < |files| ==> files[i].path != "/run/peerpod/apf.json"
    ensures SourceReference(codec, files, fallback) == WorkloadRef("", fallback, "")
  {
    if files != [] {
      assert forall i :: 0 <= i < |files[1..]| ==> files[1..][i] == files[i + 1];
      SourceReferenceOfNone(codec, files[1..], fallback);
    }
  }

  /**
   The reference names the workload of the first forwarder file: its namespace and uid, and its
   name or else the fallback. A document in which a field is neither absent, null nor a string, or
   that is no object, gives the fallback alone, and so does a list without forwarder file.
   */
  lemma ReferenceNamesWorkload(codec: Codec, files: seq<WriteFile>, fallback: string, i: nat)
    ensures
      var r := SourceReference(codec, files, fallback);
      var none := forall j :: 0 <= j < |files| ==> files[j].path != "/run/peerpod/apf.json";
      && (none ==> r == WorkloadRef("", fallback, ""))
      && (FirstForwarder(files, i) ==>
            var doc := codec.parse(files[i].content);
            if doc.Some? && doc.value.Object? then
              var fields := doc.value.fields;
              && (forall ns, name, uid ::
                    && ReadsAs(fields, "pod-namespace", ns)
                    && ReadsAs(fields, "pod-name", name) && ReadsAs(fields, "pod-uid", uid)
                    ==> r == WorkloadRef(ns, if name != "" then name else fallback, uid))
              && (|| (forall ns :: !ReadsAs(fields, "pod-namespace", ns))
                  || (forall name :: !ReadsAs(fields, "pod-name", name))
                  || (forall uid :: !ReadsAs(fields, "pod-uid", uid))
                  ==> r == WorkloadRef("", fallback, ""))
            else r == WorkloadRef("", fallback, ""))
  {
    if forall j :: 0 <= j < |files| ==> files[j].path != "/run/peerpod/apf.json" {
      SourceReferenceOfNone(codec, files, fallback);
    }
    if FirstForwarder(files, i) {
      SourceReferenceOfFirst(codec, files, fallback, i);
      var doc := codec.parse(files[i].content);
      if doc.Some? && doc.value.Object? {
        var fields := doc.value.fields;
        hide DecodeReference, ReadsAs;
        forall ns, name, uid |
          ReadsAs(fields, "pod-namespace", ns) && ReadsAs(fields, "pod-name", name) && ReadsAs(fields, "pod-uid", uid)
          ensures DecodeReference(doc, fallback) == WorkloadRef(ns, if name != "" then name else fallback, uid)
        {
          DecodeReads(fields, fallback, ns, name, uid);
        }
        if || (forall ns :: !ReadsAs(fields, "pod-namespace", ns))
           || (forall name :: !ReadsAs(fields, "pod-name", name))
           || (forall uid :: !ReadsAs(fields, "pod-uid", uid)) {
          DecodeRefuses(fields, fallback);
        }
      }
    }
  }

  lemma DecodeReads(fields: map<string, Json>, fallback: string, ns: string, name: string, uid: string)
    requires ReadsAs(fields, "pod-namespace", ns) && ReadsAs(fields, "pod-name", name)
    requires ReadsAs(fields, "pod-uid", uid)
    ensures
      DecodeReference(Some(Object(fields)), fallback) == WorkloadRef(ns, if name != "" then name else fallback, uid)
  {
  }

  lemma DecodeRefuses(fields: map<string, Json>, fallback: string)
    requires
      || (forall ns :: !ReadsAs(fields, "pod-namespace", ns))
      || (forall name :: !ReadsAs(fields, "pod-name", name))
      || (forall uid :: !ReadsAs(fields, "pod-uid", uid))
    ensures DecodeReference(Some(Object(fields)), fallback) == WorkloadRef("", fallback, "")
  {
    FieldReads(fields, "pod-namespace");
    FieldReads(fields, "pod-name");
    FieldReads(fields, "pod-uid");
  }

  lemma FieldReads(fields: map<string, Json>, key: string)
    ensures forall text :: ReadsAs(fields, key, text) <==> StringField(fields, key) == Some(text)
  {
    forall text
      ensures ReadsAs(fields, key, text) <==> StringField(fields, key) == Some(text)
    {
    }
    assert StringField(fields, key).Some? ==> ReadsAs(fields, key, StringField(fields, key).value);
  }

  /** Capping the MTU leaves the workload fields of a document alone. */
  lemma ReferenceIgnoresMtu(doc: Json, mtu: real, fallback: string)
    requires HasMtu(doc)
    ensures DecodeReference(Some(WithMtu(doc, mtu)), fallback) == DecodeReference(Some(doc), fallback)
  {
    assert |POD_NETWORK| == 11 && |POD_NAME| == 8 && |POD_NAMESPACE| == 13 && |POD_UID| == 7;
  }

  lemma {:induction false} ReferenceSkips(codec: Codec, files: seq<WriteFile>, tail: seq<WriteFile>, fallback: string)
    requires exists i :: 0 <= i < |files| && IsForwarder(files[i])
    ensures SourceReference(codec, files + tail, fallback) == SourceReference(codec, files, fallback)
  {
    if !IsForwarder(files[0]) {
      assert (files + tail)[1..] == files[1..] + tail;
      var i :| 0 <= i < |files| && IsForwarder(files[i]);
      assert files[1..][i - 1] == files[i];
      ReferenceSkips(codec, files[1..], tail, fallback);
    }
  }

  lemma {:induction false} ReferencePointwise(codec: Codec, files: seq<WriteFile>, files': seq<WriteFile>,
      fallback: string)
    requires |files| == |files'|
    requires forall i :: 0 <= i < |files| ==> IsForwarder(files'[i]) == IsForwarder(files[i])
    requires forall i :: 0 <= i < |files| && IsForwarder(files[i]) ==>
      DecodeReference(codec.parse(files'[i].content), fallback) ==
        DecodeReference(codec.parse(files[i].content), fallback)
    ensures SourceReference(codec, files', fallback) == SourceReference(codec, files, fallback)
  {
    if files != [] && !IsForwarder(files[0]) {
      ReferencePointwise(codec, files[1..], files'[1..], fallback);
    }
  }

  /** The rewrite keeps the identity of the workload. */
  lemma AdjustKeepsReference(codec: Codec, files: seq<WriteFile>, cap: int, dropIns: seq<WriteFile>, fallback: string)
    requires Faithful(codec, cap) && Adjusted(codec, files, cap, dropIns).Ok?
    ensures SourceReference(codec, Adjusted(codec, files, cap, dropIns).value, fallback) ==
      SourceReference(codec, files, fallback)
  {
    AdjustsExactlyWellFormed(codec, files, cap, dropIns);
    CapFilesPointwise(codec, files, cap);
    var capped := CapFiles(codec, files, cap).value;
    forall i | 0 <= i < |files|
      ensures IsForwarder(capped[i]) == IsForwarder(files[i])
      ensures IsForwarder(files[i]) ==>
        DecodeReference(codec.parse(capped[i].content), fallback) ==
          DecodeReference(codec.parse(files[i].content), fallback)
    {
      CapFileOkIff(codec, files[i], cap);
      assert CapFile(codec, files[i], cap) == Ok(capped[i]);
      if IsForwarder(files[i]) {
        var doc := codec.parse(files[i].content).value;
        ReferenceIgnoresMtu(doc, Capped(MtuOf(doc), cap), fallback);
      }
    }
    var i :| 0 <= i < |files| && IsForwarder(files[i]);
    assert IsForwarder(capped[i]);
    ReferenceSkips(codec, capped, dropIns, fallback);
    ReferencePointwise(codec, files, capped, fallback);
  }
}
