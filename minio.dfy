/** The `MinioClient` component: a facade over the S3 SDK that turns virtual
    paths into bucket keys under a configurable prefix. Each operation takes
    the SDK's answer as a parameter and states which SDK request(s) it issues
    and what it returns to its own caller. */
module Minio {
  import opened Php
  import opened Paths
  import opened Sdk
  import opened Shaping

  /** The component's property defaults. */
  const DefaultSettings: Settings :=
    Settings(Null, Null, Null, Null, Null, Null, Null, Str("latest"), Bool(true), map[], 300)

  /** With the property defaults, the S3 client is configured for path-style
      endpoints, version 'latest' and no debugging, and without region,
      base URL or endpoint. */
  lemma DefaultClientConfig()
    ensures ClientConfigFor(DefaultSettings).settings ==
      map["use_path_style_endpoint" := Bool(true), "debug" := Bool(false), "version" := Str("latest")]
  {
    var m := map["use_path_style_endpoint" := Bool(true), "debug" := Bool(false), "version" := Str("latest")];
    ConfigForEntries(DefaultSettings, m);
  }

  class MinioClient {
    var key: Value
    var secret: Value
    var region: Value
    var endpoint: Value
    var bucket: Value
    var baseUrl: Value
    /** The path prefix: as configured until `init` runs, then as
        `setPathPrefix` stores it. */
    var prefix: Value
    var version: Value
    var pathStyleEndpoint: Value
    /** Options added to every request. */
    var options: map<string, Value>
    /** Default lifetime of a presigned URL, in seconds. */
    var urlDuration: int
    /** The configuration the S3 client (`$this->client`) was built with. */
    var client: ClientConfig

    /** The component's properties as currently set. */
    function Configured(): Settings
      reads this
    {
      Settings(key, secret, region, endpoint, bucket, baseUrl, prefix, version, pathStyleEndpoint, options, urlDuration)
    }

    /** Creating the component: the properties are configured, then `init`
        runs (the framework's construct-then-init lifecycle). */
    constructor (s: Settings)
      ensures key == s.key && secret == s.secret && region == s.region && endpoint == s.endpoint
      ensures bucket == s.bucket && baseUrl == s.baseUrl && version == s.version
      ensures pathStyleEndpoint == s.pathStyleEndpoint && options == s.options && urlDuration == s.urlDuration
      ensures prefix == NormalizePrefix(s.prefix) && IsNormalized(prefix)
      ensures client == ClientConfigFor(s)
    {
      key, secret, region, endpoint := s.key, s.secret, s.region, s.endpoint;
      bucket, baseUrl, prefix, version := s.bucket, s.baseUrl, s.prefix, s.version;
      pathStyleEndpoint, options, urlDuration := s.pathStyleEndpoint, s.options, s.urlDuration;
      client := ClientConfig(Null, Null, map[]);
      new;
      Init();
    }

    /** `init`: builds the S3 client configuration step by step and stores the
        normalised prefix. Running it again leaves the prefix as it is. */
    method Init()
      modifies this`prefix, this`client
      ensures client == ClientConfigFor(old(Configured()))
      ensures prefix == NormalizePrefix(old(prefix)) && IsNormalized(prefix)
      ensures IsNormalized(old(prefix)) ==> prefix == old(prefix)
    {
      ghost var s := Configured();
      var config: map<string, Value> := map[];
      if pathStyleEndpoint == Bool(true) {
        config := config["use_path_style_endpoint" := Bool(true)];
      }
      if region != Null {
        config := config["region" := region];
      }
      if baseUrl != Null {
        config := config["base_url" := baseUrl];
      }
      if endpoint != Null {
        config := config["endpoint" := endpoint];
      }
      config := config["debug" := Bool(false)];
      config := config["version" := if version != Null then version else Str("latest")];
      ConfigForEntries(s, config);
      SetPathPrefix(prefix);
      client := ClientConfig(key, secret, config);
      if IsNormalized(s.prefix) {
        NormalizedIsFixed(s.prefix);
      }
    }

    /** `getBucket` */
    method GetBucket() returns (b: Value)
      ensures b == bucket
    {
      b := bucket;
    }

    /** `setBucket` */
    method SetBucket(b: Value)
      modifies this`bucket
      ensures bucket == b
    {
      bucket := b;
    }

    /** `getPathPrefix` */
    method GetPathPrefix() returns (p: Value)
      ensures p == prefix
    {
      p := prefix;
    }

    /** `setPathPrefix`: stores null for an argument that casts to "", and
        otherwise the argument without trailing separators plus one '/'. */
    method SetPathPrefix(p: Value)
      modifies this`prefix
      ensures prefix == NormalizePrefix(p) && IsNormalized(prefix)
      ensures (prefix == Null) == (ToStr(p) == [])
    {
      var text := ToStr(p);
      if text == [] {
        prefix := Null;
        return;
      }
      NormalizeSpec(p);
      prefix := Str(RTrim(text, Separators) + "/");
    }

    /** `listBuckets`: the SDK's bucket list; [] when the SDK throws an
        AwsException; other exceptions propagate. */
    method ListBuckets(outcome: Reply<seq<Value>>) returns (call: Call, r: Reply<seq<Value>>)
      ensures call == ListBucketsCall
      ensures r.Returns? <==> (outcome.Returns? || IsAwsException(outcome.error))
      ensures outcome.Returns? ==> r.value == outcome.value
      ensures outcome.Throws? && IsAwsException(outcome.error) ==> r.value == []
      ensures r.Throws? ==> r.error == outcome.error
    {
      call := ListBucketsCall;
      match outcome
      case Throws(e) =>
        r := if IsAwsException(e) then Returns([]) else Throws(e);
      case Returns(buckets) =>
        r := if buckets != [] then Returns(buckets) else Returns([]);
    }

    /** `upload`: the key is the prefixed path; the options are the configured
        ones united with the per-call ones (configured win); the ACL is the
        merged `ACL`, else 'private'; `ContentLength` follows the rule of
        `UploadParams`; the result follows `UploadReply`. */
    method Upload(path: string, body: Body, callOptions: map<string, Value>, outcome: Reply<UploadResponse>)
      returns (call: Call, r: Reply<UploadResult>)
      ensures call.UploadCall? && call.bucket == bucket && call.body == body
      ensures call.key == Apply(prefix, path)
      ensures call.acl == AclOf(Plus(options, callOptions))
      ensures call.params == UploadParams(Plus(options, callOptions), path, body)
      ensures r == UploadReply(path, outcome)
    {
      var k := Apply(prefix, path);
      var merged := Plus(options, callOptions);
      var opts := merged;
      var acl := if AclKey in opts then opts[AclKey] else Private;
      if !IsOnlyDir(path) {
        if !IsSet(opts, ContentLength) {
          match body
          case Resource(_, statSize) =>
            if statSize.Some? {
              opts := opts[ContentLength := Int(statSize.value)];
            }
          case Text(bytes) =>
            opts := opts[ContentLength := Int(|bytes|)];
        }
        if Lookup(opts, ContentLength) == Null {
          opts := opts - {ContentLength};
        }
      }
      assert opts == UploadParams(merged, path, body);
      call := UploadCall(bucket, k, body, acl, opts);
      match outcome
      case Throws(e) =>
        r := if e == MultipartUploadError then Returns(UploadFailed) else Throws(e);
      case Returns(response) =>
        r := if response.statusCode == Some(200) then Returns(Uploaded(path, response.eTag)) else Returns(UploadFailed);
    }

    /** `write`: uploads a string body. */
    method Write(path: string, contents: seq<byte>, callOptions: map<string, Value>, outcome: Reply<UploadResponse>)
      returns (call: Call, r: Reply<UploadResult>)
      ensures call.UploadCall? && call.bucket == bucket && call.body == Text(contents)
      ensures call.key == Apply(prefix, path)
      ensures call.acl == AclOf(Plus(options, callOptions))
      ensures call.params == UploadParams(Plus(options, callOptions), path, Text(contents))
      ensures !IsOnlyDir(path) && !IsSet(Plus(options, callOptions), ContentLength) ==>
                call.params[ContentLength] == Int(|contents|)
      ensures r == UploadReply(path, outcome)
    {
      call, r := Upload(path, Text(contents), callOptions, outcome);
    }

    /** `writeStream`: uploads a stream resource. */
    method WriteStream(path: string, handle: nat, statSize: Option<nat>, callOptions: map<string, Value>,
                       outcome: Reply<UploadResponse>)
      returns (call: Call, r: Reply<UploadResult>)
      ensures call.UploadCall? && call.bucket == bucket && call.body == Resource(handle, statSize)
      ensures call.key == Apply(prefix, path)
      ensures call.acl == AclOf(Plus(options, callOptions))
      ensures call.params == UploadParams(Plus(options, callOptions), path, Resource(handle, statSize))
      ensures !IsOnlyDir(path) && !IsSet(Plus(options, callOptions), ContentLength) ==>
                (ContentLength in call.params <==> statSize.Some?)
      ensures r == UploadReply(path, outcome)
    {
      call, r := Upload(path, Resource(handle, statSize), callOptions, outcome);
    }

    /** `createDir`: uploads an empty string to `dirname . '/'`; being a
        directory marker, the merged options go out without any
        `ContentLength` handling. */
    method CreateDir(dirname: string, callOptions: map<string, Value>, outcome: Reply<UploadResponse>)
      returns (call: Call, r: Reply<UploadResult>)
      ensures call.UploadCall? && call.bucket == bucket && call.body == Text([])
      ensures call.key == Apply(prefix, dirname + "/")
      ensures call.acl == AclOf(Plus(options, callOptions))
      ensures call.params == Plus(options, callOptions)
      ensures r == UploadReply(dirname + "/", outcome)
    {
      MarkerPaths(dirname);
      call, r := Upload(dirname + "/", Text([]), callOptions, outcome);
    }

    /** `deleteDir`: deletes every key under `applyPathPrefix(dirname) . '/'`;
        false when the SDK throws DeleteMultipleObjectsException, true when it
        returns; other exceptions propagate. */
    method DeleteDir(dirname: string, outcome: Reply<Done>) returns (call: Call, r: Reply<bool>)
      ensures call == DeleteMatchingCall(bucket, Apply(prefix, dirname) + "/")
      ensures outcome.Returns? ==> r == Returns(true)
      ensures outcome.Throws? && outcome.error == DeleteMultipleObjectsError ==> r == Returns(false)
      ensures outcome.Throws? && outcome.error != DeleteMultipleObjectsError ==> r == Throws(outcome.error)
    {
      var p := Apply(prefix, dirname) + "/";
      call := DeleteMatchingCall(bucket, p);
      match outcome
      case Throws(e) =>
        if e == DeleteMultipleObjectsError {
          return call, Returns(false);
        }
        r := Throws(e);
      case Returns(_) =>
        r := Returns(true);
    }

    /** `getHeadObject`: a head request for the prefixed key (bucket and key
        win over the configured options); false when the SDK throws an
        S3Exception; otherwise the array of `HeadArray`, built one header at a
        time. */
    method GetHeadObject(path: string, outcome: Reply<HeadResponse>) returns (call: Call, r: Reply<HeadObject>)
      ensures call == HeadObjectCall(KeyedParams(bucket, Apply(prefix, path), options))
      ensures outcome.Throws? && IsS3Exception(outcome.error) ==> r == Returns(NotFound)
      ensures outcome.Throws? && !IsS3Exception(outcome.error) ==> r == Throws(outcome.error)
      ensures outcome.Returns? ==>
        r.Returns? && r.value.Found? && HeadArray(path, HeadersOf(outcome.value), r.value.fields)
    {
      call := HeadObjectCall(KeyedParams(bucket, Apply(prefix, path), options));
      if outcome.Throws? {
        if IsS3Exception(outcome.error) {
          return call, Returns(NotFound);
        }
        return call, Throws(outcome.error);
      }
      var fields := map["path" := Str(path)];
      var headers := Headers(None, None, None);
      if outcome.value.headers.Some? {
        headers := outcome.value.headers.value;
      }
      if headers.contentLength.Some? {
        fields := fields["contentLength" := Int(headers.contentLength.value)];
      }
      if headers.contentType.Some? {
        fields := fields["contentType" := Str(headers.contentType.value)];
      }
      if headers.lastModified.Some? {
        fields := fields["lastModified" := TimeValue(headers.lastModified.value)];
      }
      r := Returns(Found(fields));
    }

    /** `getSize`: false on an S3Exception, null without a content-length
        header, else the parsed length. */
    method GetSize(path: string, outcome: Reply<HeadResponse>) returns (call: Call, r: Reply<Value>)
      ensures call == HeadObjectCall(KeyedParams(bucket, Apply(prefix, path), options))
      ensures outcome.Throws? ==> r == if IsS3Exception(outcome.error) then Returns(Bool(false)) else Throws(outcome.error)
      ensures outcome.Returns? ==>
        var h := HeadersOf(outcome.value);
        r == Returns(if h.contentLength.Some? then Int(h.contentLength.value) else Null)
    {
      var head;
      call, head := GetHeadObject(path, outcome);
      r := if head.Throws? then Throws(head.error) else Returns(Field(head.value, "contentLength"));
    }

    /** `getMimeType`: false on an S3Exception, null without a content-type
        header, else the header. */
    method GetMimeType(path: string, outcome: Reply<HeadResponse>) returns (call: Call, r: Reply<Value>)
      ensures call == HeadObjectCall(KeyedParams(bucket, Apply(prefix, path), options))
      ensures outcome.Throws? ==> r == if IsS3Exception(outcome.error) then Returns(Bool(false)) else Throws(outcome.error)
      ensures outcome.Returns? ==>
        var h := HeadersOf(outcome.value);
        r == Returns(if h.contentType.Some? then Str(h.contentType.value) else Null)
    {
      var head;
      call, head := GetHeadObject(path, outcome);
      r := if head.Throws? then Throws(head.error) else Returns(Field(head.value, "contentType"));
    }

    /** `getTimestamp`: false on an S3Exception, null without a last-modified
        header, else its `strtotime` value (itself false when unparsable). */
    method GetTimestamp(path: string, outcome: Reply<HeadResponse>) returns (call: Call, r: Reply<Value>)
      ensures call == HeadObjectCall(KeyedParams(bucket, Apply(prefix, path), options))
      ensures outcome.Throws? ==> r == if IsS3Exception(outcome.error) then Returns(Bool(false)) else Throws(outcome.error)
      ensures outcome.Returns? ==>
        var h := HeadersOf(outcome.value);
        r == Returns(if h.lastModified.Some? then TimeValue(h.lastModified.value) else Null)
    {
      var head;
      call, head := GetHeadObject(path, outcome);
      r := if head.Throws? then Throws(head.error) else Returns(Field(head.value, "lastModified"));
    }

    /** `has`: asks the SDK whether the prefixed key exists, passing the
        configured options, and returns its answer. */
    method Has(path: string, outcome: Reply<bool>) returns (call: Call, r: Reply<bool>)
      ensures call == DoesObjectExistCall(bucket, Apply(prefix, path), options)
      ensures r == outcome
    {
      call := DoesObjectExistCall(bucket, Apply(prefix, path), options);
      r := outcome;
    }

    /** `readObject` (behind `read`, `readStream` and `save`): a getObject
        request for the prefixed key with the configured options and, when
        a save path is given, `SaveAs` set to it; false (none) when the SDK
        throws an S3Exception. */
    method ReadObject(path: string, savePath: Option<string>, outcome: Reply<ObjectResponse>)
      returns (call: Call, r: Reply<Option<ObjectResponse>>)
      ensures call.GetObjectCall?
      ensures call.params.Keys == options.Keys + {"Bucket", "Key"} + (if savePath.Some? then {"SaveAs"} else {})
      ensures call.params["Bucket"] == bucket && call.params["Key"] == Str(Apply(prefix, path))
      ensures savePath.Some? ==> call.params["SaveAs"] == Str(savePath.value)
      ensures forall k :: k in options && k != "Bucket" && k != "Key" && (savePath.None? || k != "SaveAs") ==>
                call.params[k] == options[k]
      ensures outcome.Returns? ==> r == Returns(Some(outcome.value))
      ensures outcome.Throws? ==> r == if IsS3Exception(outcome.error) then Returns(None) else Throws(outcome.error)
    {
      var params := KeyedParams(bucket, Apply(prefix, path), options);
      if savePath.Some? {
        params := params["SaveAs" := Str(savePath.value)];
      }
      call := GetObjectCall(params);
      match outcome
      case Throws(e) =>
        r := if IsS3Exception(e) then Returns(None) else Throws(e);
      case Returns(response) =>
        r := Returns(Some(response));
    }

    /** `getObjectUrl`: the SDK's URL for the prefixed key. */
    method GetObjectUrl(path: string, outcome: Reply<string>) returns (call: Call, r: Reply<string>)
      ensures call == GetObjectUrlCall(bucket, Apply(prefix, path))
      ensures r == outcome
    {
      call := GetObjectUrlCall(bucket, Apply(prefix, path));
      r := outcome;
    }

    /** `getPresignedUrl`: presigns a GetObject for the prefixed key, expiring
        at `now + duration`, or at `now + urlDuration` when `duration` is 0. */
    method GetPresignedUrl(path: string, duration: int, now: int, outcome: Reply<string>)
      returns (call: Call, r: Reply<string>)
      ensures call.PresignCall? && call.bucket == bucket && call.key == Apply(prefix, path)
      ensures duration == 0 ==> call.expires == now + urlDuration
      ensures duration != 0 ==> call.expires == now + duration
      ensures r == outcome
    {
      var k := Apply(prefix, path);
      var endTime;
      if duration == 0 {
        endTime := now + urlDuration;
      } else {
        endTime := now + duration;
      }
      call := PresignCall(bucket, k, endTime);
      r := outcome;
    }

    /** `listObjects`: lists under `ListPrefix(prefix, directory)` and returns
        [] for an empty result, otherwise one entry per object, in order, with
        the facade prefix removed from each key. SDK exceptions propagate. */
    method ListObjects(directory: string, outcome: Reply<seq<S3Object>>) returns (call: Call, r: Reply<seq<Entry>>)
      ensures call == ListObjectsCall(bucket, ListPrefix(prefix, directory))
      ensures outcome.Throws? ==> r == Throws(outcome.error)
      ensures outcome.Returns? ==> r.Returns? && |r.value| == |outcome.value|
      ensures outcome.Returns? ==> forall i :: 0 <= i < |outcome.value| ==>
        r.value[i] == Entry(Remove(prefix, outcome.value[i].key), outcome.value[i].size, outcome.value[i].lastModified)
    {
      var p := Apply(prefix, RTrim(directory, {'/'}) + "/");
      call := ListObjectsCall(bucket, LTrim(p, {'/'}));
      match outcome
      case Throws(e) =>
        r := Throws(e);
      case Returns(contents) =>
        if |contents| == 0 {
          return call, Returns([]);
        }
        r := Returns(ListEntries(prefix, contents));
    }

    /** `delete`: issues deleteObject for the prefixed key (its exceptions
        propagate), then probes existence and returns the negated answer. */
    method Delete(path: string, deleteOutcome: Reply<Done>, existsOutcome: Reply<bool>)
      returns (calls: seq<Call>, r: Reply<bool>)
      ensures |calls| >= 1 && calls[0] == DeleteObjectCall(bucket, Apply(prefix, path))
      ensures deleteOutcome.Throws? ==> calls == calls[..1] && r == Throws(deleteOutcome.error)
      ensures deleteOutcome.Returns? ==>
        && calls == calls[..1] + [DoesObjectExistCall(bucket, Apply(prefix, path), options)]
        && r == (if existsOutcome.Returns? then Returns(!existsOutcome.value) else Throws(existsOutcome.error))
    {
      var k := Apply(prefix, path);
      calls := [DeleteObjectCall(bucket, k)];
      if deleteOutcome.Throws? {
        return calls, Throws(deleteOutcome.error);
      }
      var probe, present := Has(path, existsOutcome);
      calls := calls + [probe];
      r := if present.Returns? then Returns(!present.value) else Throws(present.error);
    }

    /** `copy`: a server-side copy between the prefixed keys, with the ACL
        taken from the configured options alone (per-call options do not
        exist here); false on an S3Exception. */
    method Copy(path: string, newPath: string, outcome: Reply<Done>) returns (call: Call, r: Reply<bool>)
      ensures call == CopyCall(bucket, Apply(prefix, path), bucket, Apply(prefix, newPath), AclOf(options), options)
      ensures outcome.Returns? ==> r == Returns(true)
      ensures outcome.Throws? ==> r == if IsS3Exception(outcome.error) then Returns(false) else Throws(outcome.error)
    {
      var acl := if AclKey in options then options[AclKey] else Private;
      call := CopyCall(bucket, Apply(prefix, path), bucket, Apply(prefix, newPath), acl, options);
      match outcome
      case Throws(e) =>
        r := if IsS3Exception(e) then Returns(false) else Throws(e);
      case Returns(_) =>
        r := Returns(true);
    }

    /** `rename`: copy, then delete the source only if the copy returned
        true. It reports true only when the copy succeeded, the delete
        returned and the object is reported gone; a failed delete after a
        successful copy is not undone. */
    method Rename(path: string, newPath: string, copyOutcome: Reply<Done>, deleteOutcome: Reply<Done>,
                  existsOutcome: Reply<bool>)
      returns (calls: seq<Call>, r: Reply<bool>)
      ensures |calls| >= 1
      ensures calls[0] == CopyCall(bucket, Apply(prefix, path), bucket, Apply(prefix, newPath), AclOf(options), options)
      ensures (|calls| > 1) == copyOutcome.Returns?
      ensures |calls| > 1 ==> calls[1] == DeleteObjectCall(bucket, Apply(prefix, path))
      ensures copyOutcome.Throws? ==>
        r == if IsS3Exception(copyOutcome.error) then Returns(false) else Throws(copyOutcome.error)
      ensures copyOutcome.Returns? ==>
        && calls[1..] == (if deleteOutcome.Throws? then [DeleteObjectCall(bucket, Apply(prefix, path))]
                          else [DeleteObjectCall(bucket, Apply(prefix, path)),
                                DoesObjectExistCall(bucket, Apply(prefix, path), options)])
        && r == (if deleteOutcome.Throws? then Throws(deleteOutcome.error)
                 else if existsOutcome.Returns? then Returns(!existsOutcome.value)
                 else Throws(existsOutcome.error))
      ensures r == Returns(true) <==>
        copyOutcome.Returns? && deleteOutcome.Returns? && existsOutcome == Returns(false)
    {
      var copyCall, copied := Copy(path, newPath, copyOutcome);
      calls := [copyCall];
      if copied != Returns(true) {
        return calls, if copied.Throws? then copied else Returns(false);
      }
      var deleteCalls;
      deleteCalls, r := Delete(path, deleteOutcome, existsOutcome);
      calls := calls + deleteCalls;
    }
  }
}
