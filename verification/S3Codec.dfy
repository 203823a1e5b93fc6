/** `S3PayloadCodec` of src/payload_storage/s3_codec.py. Payloads over the
    threshold go to an object store; a reference that hides the original metadata
    goes on in their place. JSON is abstract; Latin-1 is not. */
module S3Codec {
  import opened Sequences
  import opened Demux

  type Metadata = map<string, Bytes>
  type Objects = map<(string, string), Bytes>

  datatype Payload = Payload(metadata: Metadata, data: Bytes)

  /** The JSON object inside a reference. */
  datatype Ref = Ref(bucket: string, key: string, meta: map<string, string>)

  const ENCODING: string := "encoding"

  /** The bytes of `binary/s3`. */
  const S3_ENCODING: Bytes := [98, 105, 110, 97, 114, 121, 47, 115, 51]

  // ---- Latin-1 ----

  function FromLatin1(b: Bytes): (s: string)
    ensures |s| == |b| && forall i :: 0 <= i < |b| ==> s[i] as int == b[i]
  {
    if b == [] then "" else [b[0] as char] + FromLatin1(b[1..])
  }

  predicate IsLatin1(s: string) {
    forall i :: 0 <= i < |s| ==> s[i] as int < 256
  }

  function ToLatin1(s: string): (b: Bytes)
    requires IsLatin1(s)
    ensures |b| == |s| && forall i :: 0 <= i < |s| ==> b[i] == s[i] as int
  {
    if s == "" then [] else [s[0] as int] + ToLatin1(s[1..])
  }

  function Hide(metadata: Metadata): map<string, string> {
    map k | k in metadata :: FromLatin1(metadata[k])
  }

  /** None when some value is not Latin-1 and `encode` raises. */
  function Restore(meta: map<string, string>): Option<Metadata> {
    if forall k :: k in meta ==> IsLatin1(meta[k]) then Some(map k | k in meta :: ToLatin1(meta[k])) else None
  }

  lemma RestoreHidden(metadata: Metadata)
    ensures Restore(Hide(metadata)) == Some(metadata)
  {
    var hidden := Hide(metadata);
    forall k | k in metadata ensures IsLatin1(hidden[k]) && ToLatin1(hidden[k]) == metadata[k] {
      assert hidden[k] == FromLatin1(metadata[k]);
    }
    var restored := map k | k in hidden :: ToLatin1(hidden[k]);
    assert restored == metadata;
  }

  // ---- one payload ----

  /** How a codec is set up; `dumps` and `loads` are what json does with references. */
  datatype Setup = Setup(
    bucket: string, threshold: nat, prefix: string,
    dumps: Ref -> Bytes, loads: Bytes -> Option<Ref>
  ) {
    ghost predicate Lawful() {
      forall ref :: loads(dumps(ref)) == Some(ref)
    }

    predicate Spills(p: Payload) {
      |p.data| > threshold
    }

    function Key(uuid: string): string {
      prefix + "/" + uuid + ".bin"
    }

    function Reference(p: Payload, uuid: string): Payload {
      Payload(map[ENCODING := S3_ENCODING], dumps(Ref(bucket, Key(uuid), Hide(p.metadata))))
    }

    function EncodeOne(p: Payload, uuid: string): Payload {
      if Spills(p) then Reference(p, uuid) else p
    }

    /** None when json, the store or Latin-1 raises. */
    function DecodeOne(objects: Objects, p: Payload): Option<Payload> {
      if !Tagged(p) then Some(p)
      else
        match loads(p.data)
        case None => None
        case Some(ref) =>
          if (ref.bucket, ref.key) !in objects then None
          else
            match Restore(ref.meta)
            case None => None
            case Some(metadata) => Some(Payload(metadata, objects[(ref.bucket, ref.key)]))
    }

    // ---- lists ----

    function EncodeAll(ps: seq<Payload>, uuids: seq<string>): (out: seq<Payload>)
      requires |uuids| == |ps|
      ensures |out| == |ps| && forall i :: 0 <= i < |ps| ==> out[i] == EncodeOne(ps[i], uuids[i])
    {
      if ps == [] then [] else [EncodeOne(ps[0], uuids[0])] + EncodeAll(ps[1..], uuids[1..])
    }

    /** The store after encoding. */
    function Stored(objects: Objects, ps: seq<Payload>, uuids: seq<string>): Objects
      requires |uuids| == |ps|
    {
      if ps == [] then objects
      else
        var before := Stored(objects, DropLast(ps), DropLast(uuids));
        if Spills(Last(ps)) then before[(bucket, Key(Last(uuids))) := Last(ps).data] else before
    }

    function DecodeAll(objects: Objects, ps: seq<Payload>): Option<seq<Payload>> {
      if ps == [] then Some([])
      else
        match DecodeAll(objects, DropLast(ps))
        case None => None
        case Some(out) =>
          match DecodeOne(objects, Last(ps))
          case None => None
          case Some(p) => Some(out + [p])
    }
  }

  predicate Tagged(p: Payload) {
    ENCODING in p.metadata && p.metadata[ENCODING] == S3_ENCODING
  }

  // ---- the code ----

  /** The bucket store behind `put_object` and `get_object`. */
  class ObjectStore {
    var objects: Objects

    constructor ()
      ensures objects == map[]
    {
      objects := map[];
    }

    method PutObject(bucket: string, key: string, body: Bytes)
      modifies this
      ensures objects == old(objects)[(bucket, key) := body]
    {
      objects := objects[(bucket, key) := body];
    }

    method GetObject(bucket: string, key: string) returns (body: Option<Bytes>)
      ensures body == if (bucket, key) in objects then Some(objects[(bucket, key)]) else None
    {
      body := if (bucket, key) in objects then Some(objects[(bucket, key)]) else None;
    }
  }

  class S3PayloadCodec {
    const setup: Setup
    const client: ObjectStore

    constructor (setup: Setup, client: ObjectStore)
      ensures this.setup == setup && this.client == client
    {
      this.setup, this.client := setup, client;
    }

    /** `uuids[i]` is what `uuid4` returns if the i-th payload spills. */
    method Encode(payloads: seq<Payload>, uuids: seq<string>) returns (out: seq<Payload>)
      requires |uuids| == |payloads|
      modifies client
      ensures out == setup.EncodeAll(payloads, uuids)
      ensures client.objects == setup.Stored(old(client.objects), payloads, uuids)
    {
      out := [];
      for i := 0 to |payloads|
        invariant |out| == i && forall j :: 0 <= j < i ==> out[j] == setup.EncodeOne(payloads[j], uuids[j])
        invariant client.objects == setup.Stored(old(client.objects), payloads[..i], uuids[..i])
      {
        var p := payloads[i];
        assert DropLast(payloads[..i + 1]) == payloads[..i] && DropLast(uuids[..i + 1]) == uuids[..i];
        if |p.data| <= setup.threshold {
          out := out + [p];
        } else {
          var key := setup.Key(uuids[i]);
          client.PutObject(setup.bucket, key, p.data);
          var ref := Ref(setup.bucket, key, Hide(p.metadata));
          out := out + [Payload(map[ENCODING := S3_ENCODING], setup.dumps(ref))];
        }
      }
      assert payloads[..|payloads|] == payloads && uuids[..|uuids|] == uuids;
    }

    method Decode(payloads: seq<Payload>) returns (out: Option<seq<Payload>>)
      ensures out == setup.DecodeAll(client.objects, payloads)
    {
      var done: seq<Payload> := [];
      for i := 0 to |payloads|
        invariant setup.DecodeAll(client.objects, payloads[..i]) == Some(done)
      {
        var p := payloads[i];
        assert DropLast(payloads[..i + 1]) == payloads[..i];
        var restored := Some(p);
        if Tagged(p) {
          var ref := setup.loads(p.data);
          if ref.None? {
            restored := None;
          } else {
            var body := client.GetObject(ref.value.bucket, ref.value.key);
            var metadata := Restore(ref.value.meta);
            restored := if body.Some? && metadata.Some? then Some(Payload(metadata.value, body.value)) else None;
          }
        }
        assert restored == setup.DecodeOne(client.objects, p);
        if restored.None? {
          DecodeAllStops(setup, client.objects, payloads, i + 1);
          return None;
        }
        done := done + [restored.value];
      }
      assert payloads[..|payloads|] == payloads;
      out := Some(done);
    }
  }

  lemma {:induction false} DecodeAllStops(setup: Setup, objects: Objects, ps: seq<Payload>, n: nat)
    requires n <= |ps| && setup.DecodeAll(objects, ps[..n]) == None
    ensures setup.DecodeAll(objects, ps) == None
    decreases |ps| - n
  {
    if n == |ps| {
      assert ps[..n] == ps;
    } else {
      assert DropLast(ps[..n + 1]) == ps[..n];
      DecodeAllStops(setup, objects, ps, n + 1);
    }
  }

  // ---- one payload, byte by byte ----

  /** What the tag spells. */
  lemma TagSpelled()
    ensures FromLatin1(S3_ENCODING) == "binary/s3" && ENCODING == "encoding"
  {
    var s := FromLatin1(S3_ENCODING);
    assert |s| == 9;
  }

  /** A character for each byte, with the byte as its code. */
  predicate SameCodes(text: string, bytes: Bytes) {
    |text| == |bytes| && forall i :: 0 <= i < |text| ==> text[i] as int == bytes[i]
  }

  /** A payload up to the threshold goes out as it is; a longer one is stored under
      the prefix, and a tagged reference to it goes out that keeps its metadata, a
      character for each byte. */
  lemma EncodedExactly(setup: Setup, objects: Objects, p: Payload, uuid: string)
    ensures |p.data| <= setup.threshold ==>
              setup.EncodeAll([p], [uuid]) == [p] && setup.Stored(objects, [p], [uuid]) == objects
    ensures |p.data| > setup.threshold ==>
              var key := setup.prefix + "/" + uuid + ".bin";
              && setup.Stored(objects, [p], [uuid]) == objects[(setup.bucket, key) := p.data]
              && exists meta: map<string, string> ::
                   && setup.EncodeAll([p], [uuid])
                        == [Payload(map["encoding" := [98, 105, 110, 97, 114, 121, 47, 115, 51]],
                                    setup.dumps(Ref(setup.bucket, key, meta)))]
                   && meta.Keys == p.metadata.Keys
                   && forall k :: k in meta ==> SameCodes(meta[k], p.metadata[k])
  {
    var meta := Hide(p.metadata);
    assert [p][1..] == [] && [uuid][1..] == [] && DropLast([p]) == [] && DropLast([uuid]) == [];
    assert setup.EncodeAll([], []) == [];
    assert [setup.EncodeOne(p, uuid)] + [] == [setup.EncodeOne(p, uuid)];
    assert setup.Stored(objects, [], []) == objects;
    assert meta.Keys == p.metadata.Keys;
  }

  /** Only the tag makes decoding look at a payload. */
  lemma UntaggedPasses(setup: Setup, objects: Objects, p: Payload)
    requires "encoding" !in p.metadata || p.metadata["encoding"] != [98, 105, 110, 97, 114, 121, 47, 115, 51]
    ensures setup.DecodeAll(objects, [p]) == Some([p])
  {
    assert DropLast([p]) == [] && [] + [p] == [p];
  }

  /** A tagged payload decodes only if its data is a reference, the object is there,
      and every character of the metadata is a byte; the object's data then comes back. */
  lemma ReferencesExactly(setup: Setup, objects: Objects, p: Payload)
    requires "encoding" in p.metadata && p.metadata["encoding"] == [98, 105, 110, 97, 114, 121, 47, 115, 51]
    ensures setup.DecodeAll(objects, [p]).Some? <==>
              var ref := setup.loads(p.data);
              && ref.Some? && (ref.value.bucket, ref.value.key) in objects
              && forall k :: k in ref.value.meta ==> forall c :: c in ref.value.meta[k] ==> c as int < 256
    ensures setup.DecodeAll(objects, [p]).Some? ==>
              var ref, out := setup.loads(p.data).value, setup.DecodeAll(objects, [p]).value;
              && |out| == 1 && out[0].data == objects[(ref.bucket, ref.key)] && out[0].metadata.Keys == ref.meta.Keys
              && forall k :: k in ref.meta ==> SameCodes(ref.meta[k], out[0].metadata[k])
  {
    assert DropLast([p]) == [];
    assert setup.DecodeAll(objects, []) == Some([]);
    if setup.loads(p.data).Some? {
      var meta := setup.loads(p.data).value.meta;
      forall k | k in meta ensures IsLatin1(meta[k]) <==> forall c :: c in meta[k] ==> c as int < 256 {
        assert forall i :: 0 <= i < |meta[k]| ==> meta[k][i] in meta[k];
      }
    }
  }

  // ---- stores that grow ----

  ghost predicate Extends(older: Objects, newer: Objects) {
    forall k :: k in older ==> k in newer && newer[k] == older[k]
  }

  /** The uuids are new: to one another and to the store. */
  ghost predicate Fresh(setup: Setup, objects: Objects, uuids: seq<string>) {
    && (forall i, j :: 0 <= i < j < |uuids| ==> uuids[i] != uuids[j])
    && (forall i :: 0 <= i < |uuids| ==> (setup.bucket, setup.Key(uuids[i])) !in objects)
  }

  lemma KeyInjective(setup: Setup, a: string, b: string)
    requires setup.Key(a) == setup.Key(b)
    ensures a == b
  {
    var n := |setup.prefix| + 1;
    var key := setup.Key(a);
    assert key[n..|key| - 4] == a;
    assert key[n..|key| - 4] == b;
  }

  lemma {:induction false} StoredHolds(setup: Setup, objects: Objects, ps: seq<Payload>, uuids: seq<string>)
    requires |uuids| == |ps| && Fresh(setup, objects, uuids)
    ensures var now := setup.Stored(objects, ps, uuids);
            && Extends(objects, now)
            && (forall i :: 0 <= i < |ps| && setup.Spills(ps[i]) ==>
                  (setup.bucket, setup.Key(uuids[i])) in now && now[(setup.bucket, setup.Key(uuids[i]))] == ps[i].data)
  {
    if ps != [] {
      StoredHolds(setup, objects, DropLast(ps), DropLast(uuids));
      forall i | 0 <= i < |ps| - 1 ensures setup.Key(uuids[i]) != setup.Key(Last(uuids)) {
        if setup.Key(uuids[i]) == setup.Key(Last(uuids)) {
          KeyInjective(setup, uuids[i], Last(uuids));
        }
      }
    }
  }

  lemma {:induction false} DecodeAllPointwise(setup: Setup, objects: Objects, ps: seq<Payload>, qs: seq<Payload>)
    requires |ps| == |qs|
    ensures setup.DecodeAll(objects, ps) == Some(qs) <==>
            forall i :: 0 <= i < |ps| ==> setup.DecodeOne(objects, ps[i]) == Some(qs[i])
  {
    if ps != [] {
      DecodeAllPointwise(setup, objects, DropLast(ps), DropLast(qs));
      assert qs == DropLast(qs) + [Last(qs)];
      if setup.DecodeAll(objects, ps) == Some(qs) {
        var out := setup.DecodeAll(objects, DropLast(ps)).value;
        assert (out + [setup.DecodeOne(objects, Last(ps)).value])[..|out|] == out == DropLast(qs);
        assert setup.DecodeOne(objects, Last(ps)) == Some(Last(qs));
      } else {
        assert qs == DropLast(qs) + [Last(qs)];
      }
    }
  }

  // ---- the round trip ----

  lemma ReferenceDecodes(setup: Setup, objects: Objects, p: Payload, uuid: string)
    requires setup.Lawful()
    requires (setup.bucket, setup.Key(uuid)) in objects && objects[(setup.bucket, setup.Key(uuid))] == p.data
    ensures setup.DecodeOne(objects, setup.Reference(p, uuid)) == Some(p)
  {
    RestoreHidden(p.metadata);
    var ref := Ref(setup.bucket, setup.Key(uuid), Hide(p.metadata));
    assert setup.loads(setup.dumps(ref)) == Some(ref);
  }

  /** Over any store: only payloads that stay inline though they carry the
      codec's tag decide whether a list comes back. */
  lemma RoundTripPointwise(setup: Setup, objects: Objects, ps: seq<Payload>, uuids: seq<string>, later: Objects)
    requires setup.Lawful() && |uuids| == |ps| && Fresh(setup, objects, uuids)
    requires Extends(setup.Stored(objects, ps, uuids), later)
    ensures setup.DecodeAll(later, setup.EncodeAll(ps, uuids)) == Some(ps) <==>
            forall p :: p in ps && !setup.Spills(p) && Tagged(p) ==> setup.DecodeOne(later, p) == Some(p)
  {
    StoredHolds(setup, objects, ps, uuids);
    var out := setup.EncodeAll(ps, uuids);
    forall i | 0 <= i < |ps| && setup.Spills(ps[i]) ensures setup.DecodeOne(later, out[i]) == Some(ps[i]) {
      ReferenceDecodes(setup, later, ps[i], uuids[i]);
    }
    DecodeAllPointwise(setup, later, out, ps);
    if setup.DecodeAll(later, out) == Some(ps) {
      forall p | p in ps && !setup.Spills(p) && Tagged(p) ensures setup.DecodeOne(later, p) == Some(p) {
        var i :| 0 <= i < |ps| && ps[i] == p;
        assert out[i] == p;
      }
    } else {
      assert !forall i :: 0 <= i < |ps| ==> setup.DecodeOne(later, out[i]) == Some(ps[i]);
    }
  }

  /** No payload at or under the threshold carries the codec's own tag. */
  predicate NoInlineTag(setup: Setup, ps: seq<Payload>) {
    forall p :: p in ps && !setup.Spills(p) ==> !Tagged(p)
  }

  /** What a store that only codecs with this threshold write looks like. */
  ghost predicate OnlySpilled(setup: Setup, objects: Objects) {
    forall k :: k in objects ==> |objects[k]| > setup.threshold
  }

  lemma {:induction false} StoredOnlySpilled(setup: Setup, objects: Objects, ps: seq<Payload>, uuids: seq<string>)
    requires |uuids| == |ps| && OnlySpilled(setup, objects)
    ensures OnlySpilled(setup, setup.Stored(objects, ps, uuids))
  {
    if ps != [] {
      StoredOnlySpilled(setup, objects, DropLast(ps), DropLast(uuids));
    }
  }

  /** A tagged inline payload never comes back as itself: what it would have to
      point to is longer than it is. */
  lemma InlineTagChanges(setup: Setup, objects: Objects, p: Payload)
    requires OnlySpilled(setup, objects) && !setup.Spills(p) && Tagged(p)
    ensures setup.DecodeOne(objects, p) != Some(p)
  {
  }

  /** Decoding inverts encoding, in order, data and metadata, and after any later
      writes, exactly for the lists in which no inline payload carries the tag. */
  lemma RoundTripExactly(setup: Setup, objects: Objects, ps: seq<Payload>, uuids: seq<string>, later: Objects)
    requires setup.Lawful() && |uuids| == |ps| && Fresh(setup, objects, uuids)
    requires Extends(setup.Stored(objects, ps, uuids), later) && OnlySpilled(setup, later)
    ensures setup.DecodeAll(later, setup.EncodeAll(ps, uuids)) == Some(ps) <==> NoInlineTag(setup, ps)
  {
    RoundTripPointwise(setup, objects, ps, uuids, later);
    forall p | p in ps && !setup.Spills(p) && Tagged(p) ensures setup.DecodeOne(later, p) != Some(p) {
      InlineTagChanges(setup, later, p);
    }
  }

  /** A tagged inline payload whose data is no reference makes decoding fail. */
  lemma InlineTagBreaks(setup: Setup, objects: Objects, p: Payload, uuid: string)
    requires !setup.Spills(p) && Tagged(p) && setup.loads(p.data) == None
    ensures setup.DecodeAll(setup.Stored(objects, [p], [uuid]), setup.EncodeAll([p], [uuid])) == None
  {
    var out := setup.EncodeAll([p], [uuid]);
    assert out == [p] && DropLast(out) == [];
  }

  // ---- many encodes over one store ----

  datatype Batch = Batch(payloads: seq<Payload>, uuids: seq<string>)

  function StoredBatches(setup: Setup, objects: Objects, batches: seq<Batch>): Objects
    requires forall b :: b in batches ==> |b.uuids| == |b.payloads|
    decreases |batches|
  {
    if batches == [] then objects
    else
      StoredBatches(setup, setup.Stored(objects, batches[0].payloads, batches[0].uuids), batches[1..])
  }

  ghost predicate FreshBatches(setup: Setup, objects: Objects, batches: seq<Batch>)
    decreases |batches|
  {
    batches == [] ||
    (|batches[0].uuids| == |batches[0].payloads| && Fresh(setup, objects, batches[0].uuids) &&
     FreshBatches(setup, setup.Stored(objects, batches[0].payloads, batches[0].uuids), batches[1..]))
  }

  lemma {:induction false} BatchesExtend(setup: Setup, objects: Objects, batches: seq<Batch>)
    requires FreshBatches(setup, objects, batches)
    ensures forall b :: b in batches ==> |b.uuids| == |b.payloads|
    ensures Extends(objects, StoredBatches(setup, objects, batches))
    decreases |batches|
  {
    if batches != [] {
      StoredHolds(setup, objects, batches[0].payloads, batches[0].uuids);
      BatchesExtend(setup, setup.Stored(objects, batches[0].payloads, batches[0].uuids), batches[1..]);
      assert forall b :: b in batches ==> b == batches[0] || b in batches[1..];
    }
  }

  /** Whatever is encoded later, every earlier batch still decodes to what it was. */
  lemma {:induction false} EveryBatchDecodes(setup: Setup, objects: Objects, batches: seq<Batch>, i: nat)
    requires setup.Lawful() && FreshBatches(setup, objects, batches) && i < |batches|
    requires NoInlineTag(setup, batches[i].payloads)
    ensures |batches[i].uuids| == |batches[i].payloads|
    ensures forall b :: b in batches ==> |b.uuids| == |b.payloads|
    ensures setup.DecodeAll(StoredBatches(setup, objects, batches),
                            setup.EncodeAll(batches[i].payloads, batches[i].uuids))
         == Some(batches[i].payloads)
    decreases |batches|
  {
    BatchesExtend(setup, objects, batches);
    assert batches[i] in batches;
    var now := setup.Stored(objects, batches[0].payloads, batches[0].uuids);
    if i == 0 {
      BatchesExtend(setup, now, batches[1..]);
      RoundTripPointwise(setup, objects, batches[0].payloads, batches[0].uuids, StoredBatches(setup, objects, batches));
    } else {
      EveryBatchDecodes(setup, now, batches[1..], i - 1);
    }
  }

  // ---- codecs on top of one another ----

  /** n decodes of one payload. */
  function Unwind(setup: Setup, objects: Objects, p: Payload, n: nat): Option<Payload>
    decreases n
  {
    if n == 0 then Some(p)
    else
      match setup.DecodeOne(objects, p)
      case None => None
      case Some(q) => Unwind(setup, objects, q, n - 1)
  }

  function DecodeTimes(setup: Setup, objects: Objects, ps: seq<Payload>, n: nat): Option<seq<Payload>>
    decreases n
  {
    if n == 0 then Some(ps)
    else
      match setup.DecodeAll(objects, ps)
      case None => None
      case Some(qs) => DecodeTimes(setup, objects, qs, n - 1)
  }

  /** Encoding level after level; each level draws its own uuids. */
  function EncodeTimes(setup: Setup, objects: Objects, ps: seq<Payload>, levels: seq<seq<string>>): (seq<Payload>, Objects)
    requires forall uuids :: uuids in levels ==> |uuids| == |ps|
    decreases |levels|
  {
    if levels == [] then (ps, objects)
    else EncodeTimes(setup, setup.Stored(objects, ps, levels[0]), setup.EncodeAll(ps, levels[0]), levels[1..])
  }

  ghost predicate FreshLevels(setup: Setup, objects: Objects, ps: seq<Payload>, levels: seq<seq<string>>)
    decreases |levels|
  {
    levels == [] ||
    (|levels[0]| == |ps| && Fresh(setup, objects, levels[0]) &&
     FreshLevels(setup, setup.Stored(objects, ps, levels[0]), setup.EncodeAll(ps, levels[0]), levels[1..]))
  }

  /** From n decodes on, a payload stands for its original. */
  ghost predicate StandsFor(setup: Setup, objects: Objects, p: Payload, original: Payload, n: nat) {
    forall m: nat :: n <= m ==> Unwind(setup, objects, p, m) == Some(original)
  }

  lemma {:induction false} UnwindExtends(setup: Setup, older: Objects, newer: Objects, p: Payload, n: nat)
    requires Extends(older, newer) && Unwind(setup, older, p, n).Some?
    ensures Unwind(setup, newer, p, n) == Unwind(setup, older, p, n)
    decreases n
  {
    if n > 0 {
      UnwindExtends(setup, older, newer, setup.DecodeOne(older, p).value, n - 1);
    }
  }

  lemma {:induction false} UntaggedStands(setup: Setup, objects: Objects, p: Payload, m: nat)
    requires !Tagged(p)
    ensures Unwind(setup, objects, p, m) == Some(p)
  {
    if m > 0 {
      UntaggedStands(setup, objects, p, m - 1);
    }
  }

  /** One more encode, one more decode: a payload kept inline needs no extra
      decode and does not mind it, a spilled one needs exactly one more. */
  lemma EncodeStands(setup: Setup, older: Objects, newer: Objects, p: Payload, uuid: string, original: Payload, n: nat)
    requires setup.Lawful() && Extends(older, newer) && StandsFor(setup, older, p, original, n)
    requires setup.Spills(p) ==>
               (setup.bucket, setup.Key(uuid)) in newer && newer[(setup.bucket, setup.Key(uuid))] == p.data
    ensures StandsFor(setup, newer, setup.EncodeOne(p, uuid), original, n + 1)
  {
    forall m: nat | n <= m ensures Unwind(setup, newer, p, m) == Some(original) {
      UnwindExtends(setup, older, newer, p, m);
    }
    if setup.Spills(p) {
      ReferenceDecodes(setup, newer, p, uuid);
      forall m: nat | n + 1 <= m ensures Unwind(setup, newer, setup.Reference(p, uuid), m) == Some(original) {
        assert Unwind(setup, newer, p, m - 1) == Some(original);
      }
    }
  }

  lemma {:induction false} LevelsStand(
    setup: Setup, objects: Objects, ps: seq<Payload>, levels: seq<seq<string>>, originals: seq<Payload>, n: nat
  )
    requires setup.Lawful() && FreshLevels(setup, objects, ps, levels) && |originals| == |ps|
    requires forall i :: 0 <= i < |ps| ==> StandsFor(setup, objects, ps[i], originals[i], n)
    ensures forall uuids :: uuids in levels ==> |uuids| == |ps|
    ensures var (out, store) := EncodeTimes(setup, objects, ps, levels);
            |out| == |ps| &&
            forall i :: 0 <= i < |ps| ==> StandsFor(setup, store, out[i], originals[i], n + |levels|)
    decreases |levels|
  {
    if levels != [] {
      var newer := setup.Stored(objects, ps, levels[0]);
      var next := setup.EncodeAll(ps, levels[0]);
      StoredHolds(setup, objects, ps, levels[0]);
      forall i | 0 <= i < |ps| ensures StandsFor(setup, newer, next[i], originals[i], n + 1) {
        EncodeStands(setup, objects, newer, ps[i], levels[0][i], originals[i], n);
      }
      LevelsStand(setup, newer, next, levels[1..], originals, n + 1);
      assert forall uuids :: uuids in levels ==> uuids == levels[0] || uuids in levels[1..];
    }
  }

  lemma {:induction false} DecodeTimesPointwise(
    setup: Setup, objects: Objects, ps: seq<Payload>, originals: seq<Payload>, n: nat
  )
    requires |ps| == |originals|
    requires forall i :: 0 <= i < |ps| ==> Unwind(setup, objects, ps[i], n) == Some(originals[i])
    ensures DecodeTimes(setup, objects, ps, n) == Some(originals)
    decreases n
  {
    if n == 0 {
      assert ps == originals;
    } else {
      var qs := seq(|ps|, i requires 0 <= i < |ps| =>
        if setup.DecodeOne(objects, ps[i]).Some? then setup.DecodeOne(objects, ps[i]).value else ps[i]);
      DecodeAllPointwise(setup, objects, ps, qs);
      DecodeTimesPointwise(setup, objects, qs, originals, n - 1);
    }
  }

  /** n encodes followed by n decodes give back every list of untagged payloads,
      for every n, whether references stay inline or spill in their turn. */
  lemma StackedRoundTrip(setup: Setup, objects: Objects, ps: seq<Payload>, levels: seq<seq<string>>)
    requires setup.Lawful() && FreshLevels(setup, objects, ps, levels)
    requires forall p :: p in ps ==> !Tagged(p)
    ensures forall uuids :: uuids in levels ==> |uuids| == |ps|
    ensures var (out, store) := EncodeTimes(setup, objects, ps, levels);
            DecodeTimes(setup, store, out, |levels|) == Some(ps)
  {
    forall i | 0 <= i < |ps| ensures StandsFor(setup, objects, ps[i], ps[i], 0) {
      forall m: nat ensures Unwind(setup, objects, ps[i], m) == Some(ps[i]) {
        UntaggedStands(setup, objects, ps[i], m);
      }
    }
    LevelsStand(setup, objects, ps, levels, ps, 0);
    var (out, store) := EncodeTimes(setup, objects, ps, levels);
    DecodeTimesPointwise(setup, store, out, ps, |levels|);
  }
}
