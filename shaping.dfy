/** How the facade shapes the requests it sends and the values it returns:
    the S3 client configuration built by `init`, the option arrays of
    `upload`, `getHeadObject` and `readObject`, the ACL choice, the
    `ContentLength` rule, the upload result, the head-object array and the
    listing entries. All pure: the facade class feeds its fields in. */
module Shaping {
  import opened Php
  import opened Paths
  import opened Sdk

  const ContentLength: string := "ContentLength"
  const AclKey: string := "ACL"
  const Private: Value := Str("private")

  // ---------------------------------------------------------------------------
  // init

  /** The component's public configuration properties. */
  datatype Settings = Settings(
    key: Value,
    secret: Value,
    region: Value,
    endpoint: Value,
    bucket: Value,
    baseUrl: Value,
    prefix: Value,
    version: Value,
    pathStyleEndpoint: Value,
    options: map<string, Value>,
    urlDuration: int)

  /** The array `init` passes to `new S3Client(...)`: the credentials pair and
      the remaining top-level settings. */
  datatype ClientConfig = ClientConfig(credentialKey: Value, credentialSecret: Value, settings: map<string, Value>)

  const ConfigKeys: set<string> := {"use_path_style_endpoint", "region", "base_url", "endpoint", "debug", "version"}

  /** The value of one top-level setting, or none when `init` leaves it out. */
  function ConfigEntry(s: Settings, name: string): (e: Option<Value>)
  {
    if name == "use_path_style_endpoint" then (if s.pathStyleEndpoint == Bool(true) then Some(Bool(true)) else None)
    else if name == "region" then (if s.region != Null then Some(s.region) else None)
    else if name == "base_url" then (if s.baseUrl != Null then Some(s.baseUrl) else None)
    else if name == "endpoint" then (if s.endpoint != Null then Some(s.endpoint) else None)
    else if name == "debug" then Some(Bool(false))
    else if name == "version" then Some(if s.version != Null then s.version else Str("latest"))
    else None
  }

  /** The S3 client configuration for the given properties: `region`,
      `base_url` and `endpoint` appear exactly when set (not null) and carry
      the property's value; `use_path_style_endpoint` appears, as true,
      exactly when the property is identical to `true`; `debug` is always
      false; `version` falls back to 'latest'. Nothing else is set. */
  function ClientConfigFor(s: Settings): (c: ClientConfig)
    ensures c.credentialKey == s.key && c.credentialSecret == s.secret
    ensures c.settings.Keys <= ConfigKeys
    ensures ("use_path_style_endpoint" in c.settings) == (s.pathStyleEndpoint == Bool(true))
    ensures "use_path_style_endpoint" in c.settings ==> c.settings["use_path_style_endpoint"] == Bool(true)
    ensures ("region" in c.settings) == (s.region != Null)
    ensures "region" in c.settings ==> c.settings["region"] == s.region
    ensures ("base_url" in c.settings) == (s.baseUrl != Null)
    ensures "base_url" in c.settings ==> c.settings["base_url"] == s.baseUrl
    ensures ("endpoint" in c.settings) == (s.endpoint != Null)
    ensures "endpoint" in c.settings ==> c.settings["endpoint"] == s.endpoint
    ensures "debug" in c.settings && c.settings["debug"] == Bool(false)
    ensures "version" in c.settings && c.settings["version"] == (if s.version != Null then s.version else Str("latest"))
  {
    ClientConfig(s.key, s.secret,
      map name | name in ConfigKeys && ConfigEntry(s, name).Some? :: ConfigEntry(s, name).value)
  }

  /** Any settings map that agrees with `ConfigEntry` key by key is the one
      `ClientConfigFor` builds. */
  lemma ConfigForEntries(s: Settings, m: map<string, Value>)
    requires m.Keys <= ConfigKeys
    requires forall name :: name in ConfigKeys ==> (name in m <==> ConfigEntry(s, name).Some?)
    requires forall name :: name in m ==> m[name] == ConfigEntry(s, name).value
    ensures ClientConfigFor(s) == ClientConfig(s.key, s.secret, m)
  {
    assert ClientConfigFor(s).settings.Keys == m.Keys;
  }

  // ---------------------------------------------------------------------------
  // getHeadObject and readObject parameters

  /** `['Bucket' => $bucket, 'Key' => $key] + $options`: the bucket and key
      always win over the configured options, every other option is passed. */
  function KeyedParams(bucket: Value, key: string, options: map<string, Value>): (p: map<string, Value>)
    ensures p.Keys == options.Keys + {"Bucket", "Key"}
    ensures p["Bucket"] == bucket && p["Key"] == Str(key)
    ensures forall k :: k in options && k != "Bucket" && k != "Key" ==> p[k] == options[k]
  {
    Plus(map["Bucket" := bucket, "Key" := Str(key)], options)
  }

  // ---------------------------------------------------------------------------
  // upload

  /** The ACL `upload` and `copy` pass on: the options' `ACL` entry whenever
      the key exists (`array_key_exists`, so even a null entry), otherwise
      'private'. */
  function AclOf(options: map<string, Value>): (acl: Value)
    ensures AclKey in options ==> acl == options[AclKey]
    ensures AclKey !in options ==> acl == Private
  {
    if AclKey in options then options[AclKey] else Private
  }

  /** The length `upload` can compute for a body: `strlen` of a string, the
      `fstat` size of a resource when `fstat` gives one. */
  function KnownLength(body: Body): (n: Option<nat>)
  {
    match body
    case Text(bytes) => Some(|bytes|)
    case Resource(_, statSize) => statSize
  }

  /** The `'params'` `upload` sends, given the merged options. A directory
      marker path leaves them as they are. Otherwise a `ContentLength` that is
      set (present, not null) is kept; a missing or null one is replaced by the
      body's known length, or removed when none is known. No other key
      changes, and no null `ContentLength` is ever sent for a non-marker. */
  function UploadParams(merged: map<string, Value>, path: string, body: Body): (p: map<string, Value>)
    ensures IsOnlyDir(path) ==> p == merged
    ensures forall k :: k != ContentLength ==> (k in p <==> k in merged)
    ensures forall k :: k in p && k != ContentLength ==> p[k] == merged[k]
    ensures !IsOnlyDir(path) ==>
      && (ContentLength in p <==> IsSet(merged, ContentLength) || KnownLength(body).Some?)
      && (IsSet(merged, ContentLength) ==> p[ContentLength] == merged[ContentLength])
      && (!IsSet(merged, ContentLength) && KnownLength(body).Some? ==>
            p[ContentLength] == Int(KnownLength(body).value))
      && (ContentLength in p ==> p[ContentLength] != Null)
  {
    if IsOnlyDir(path) || IsSet(merged, ContentLength) then merged
    else match KnownLength(body)
         case Some(n) => merged[ContentLength := Int(n)]
         case None => merged - {ContentLength}
  }

  /** The value `upload` returns. */
  datatype UploadResult = UploadFailed | Uploaded(path: string, eTag: Value)

  /** `upload`'s result mapping: `{path, eTag}` exactly when the SDK returns
      with status code 200; `false` when it returns with another or no status
      code, or throws S3MultipartUploadException; any other exception
      propagates. */
  function UploadReply(path: string, outcome: Reply<UploadResponse>): (r: Reply<UploadResult>)
    ensures (r.Returns? && r.value.Uploaded?) <==> (outcome.Returns? && outcome.value.statusCode == Some(200))
    ensures r.Returns? && r.value.Uploaded? ==> r.value.path == path && r.value.eTag == outcome.value.eTag
    ensures r.Throws? <==> (outcome.Throws? && outcome.error != MultipartUploadError)
    ensures r.Throws? ==> r.error == outcome.error
  {
    match outcome
    case Throws(e) => if e == MultipartUploadError then Returns(UploadFailed) else Throws(e)
    case Returns(response) =>
      if response.statusCode == Some(200) then Returns(Uploaded(path, response.eTag)) else Returns(UploadFailed)
  }

  /** On a key collision the merged options keep the configured value; the
      per-call options only add keys the configured ones lack. This survives
      the ContentLength rule for every key, and for ContentLength itself
      whenever the configured value is set. */
  lemma UploadKeepsConfigured(configured: map<string, Value>, call: map<string, Value>, path: string, body: Body)
    ensures var p := UploadParams(Plus(configured, call), path, body);
      && (forall k :: k in configured && k != ContentLength ==> k in p && p[k] == configured[k])
      && (forall k :: k in call && k !in configured && k != ContentLength ==> k in p && p[k] == call[k])
      && (IsSet(configured, ContentLength) ==> p[ContentLength] == configured[ContentLength])
  {
  }

  /** The ACL of an upload: the configured `ACL` if there is one, else the
      per-call `ACL`, else 'private'. */
  lemma UploadAcl(configured: map<string, Value>, call: map<string, Value>)
    ensures AclOf(Plus(configured, call)) ==
      if AclKey in configured then configured[AclKey]
      else if AclKey in call then call[AclKey]
      else Private
  {
  }

  // ---------------------------------------------------------------------------
  // getHeadObject

  /** `$result['@metadata']['headers']`, or no headers when it is missing. */
  function HeadersOf(response: HeadResponse): (h: Headers)
  {
    if response.headers.Some? then response.headers.value else Headers(None, None, None)
  }

  /** What `strtotime` leaves in the array: the timestamp, or false. */
  function TimeValue(t: Time): (v: Value)
  {
    match t
    case Epoch(seconds) => Int(seconds)
    case Unparsable => Bool(false)
  }

  /** The array `getHeadObject` returns for a successful head request: `path`
      is the path as the caller gave it, and each of `contentLength`,
      `contentType` and `lastModified` is present exactly when its header is,
      holding the parsed header. */
  ghost predicate HeadArray(path: string, h: Headers, fields: map<string, Value>)
  {
    && fields.Keys <= {"path", "contentLength", "contentType", "lastModified"}
    && "path" in fields && fields["path"] == Str(path)
    && ("contentLength" in fields <==> h.contentLength.Some?)
    && (h.contentLength.Some? ==> fields["contentLength"] == Int(h.contentLength.value))
    && ("contentType" in fields <==> h.contentType.Some?)
    && (h.contentType.Some? ==> fields["contentType"] == Str(h.contentType.value))
    && ("lastModified" in fields <==> h.lastModified.Some?)
    && (h.lastModified.Some? ==> fields["lastModified"] == TimeValue(h.lastModified.value))
  }

  /** The head array is determined by the path and the headers. */
  lemma HeadArrayUnique(path: string, h: Headers, f1: map<string, Value>, f2: map<string, Value>)
    requires HeadArray(path, h, f1) && HeadArray(path, h, f2)
    ensures f1 == f2
  {
    assert f1.Keys == f2.Keys;
  }

  /** The value `getHeadObject` returns: false, or the array. */
  datatype HeadObject = NotFound | Found(fields: map<string, Value>)

  /** `getSize` / `getMimeType` / `getTimestamp` on a `getHeadObject` result:
      false when it was false (the array is never empty, so never falsy),
      otherwise the field, read as null when absent. */
  function Field(head: HeadObject, name: string): (v: Value)
  {
    if head.NotFound? then Bool(false) else Lookup(head.fields, name)
  }

  // ---------------------------------------------------------------------------
  // listObjects

  /** One element of the array `listObjects` returns. */
  datatype Entry = Entry(key: string, size: Value, timestamp: int)

  /** The `array_map` of `listObjects`: one entry per object, in order, with
      the facade prefix removed from the key and size and timestamp copied. */
  function ListEntries(prefix: Value, objects: seq<S3Object>): (r: seq<Entry>)
    ensures |r| == |objects|
    ensures forall i :: 0 <= i < |objects| ==>
      r[i] == Entry(Remove(prefix, objects[i].key), objects[i].size, objects[i].lastModified)
  {
    if objects == [] then []
    else
      var o := objects[0];
      [Entry(Remove(prefix, o.key), o.size, o.lastModified)] + ListEntries(prefix, objects[1..])
  }

  /** The listing of a concrete directory: under the prefix "p/", the objects
      "p/d/a" and "p/d/b/c" listed for "d" come back as "d/a" and "d/b/c". */
  lemma ListEntriesExample()
    ensures ListPrefix(Str("p/"), "d") == "p/d/"
    ensures ListEntries(Str("p/"), [S3Object("p/d/a", Int(1), 10), S3Object("p/d/b/c", Int(2), 20)]) ==
            [Entry("d/a", Int(1), 10), Entry("d/b/c", Int(2), 20)]
  {
    assert RTrim("d", {'/'}) == "d";
    assert LTrim("d/", Separators) == "d/" by { LTrimNoop("d/", Separators); }
    assert LTrim("p/d/", {'/'}) == "p/d/" by { LTrimNoop("p/d/", {'/'}); }
    assert "p/d/a"[2..] == "d/a";
    assert "p/d/b/c"[2..] == "d/b/c";
  }
}
