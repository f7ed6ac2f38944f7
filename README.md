# yii2-minio `MinioClient`, modelled in Dafny

`MinioClient` is a Yii component. It is a facade over the AWS S3 SDK that gives an S3-compatible bucket directory-like semantics. Callers pass virtual paths, and the component turns them into bucket keys under a configurable path prefix. It shapes the request options for the SDK and maps the SDK's answers (or exceptions) onto small return values such as `false`, `[]`, `{path, eTag}` or an array of headers.

All a facade like this can state is its key, option and return-value logic, so that is what the model covers. The S3 SDK itself is not simulated. Every SDK request the facade issues is recorded as an `Sdk.Call` value. Every SDK answer is an opaque input, `Sdk.Reply<T>`: the SDK either returns a payload or throws one of the exception classes the component tells apart:

- `S3Exception`
- other `AwsException`s
- `S3MultipartUploadException`
- `DeleteMultipleObjectsException`
- anything else

A facade operation returns its own `Reply`. `Throws(e)` means that the exception propagates to the caller.

Modules:

- `Php` (php.dfy) covers the PHP semantics the source relies on:
  - scalars (`Value`) and the `(string)` cast;
  - `ltrim`/`rtrim` with a character list, each specified by what it removes and what it keeps;
  - PHP 8 `substr` for a non-negative start;
  - array union `+`, where the left operand wins on a key collision;
  - `isset` and PHP 8 reads of an absent key, which give null.
- `Paths` (paths.dfy) holds the prefix rules and their laws: what `setPathPrefix` stores, `applyPathPrefix`, `removePathPrefix`, `isOnlyDir`, and the listing prefix of `listObjects`.
- `Sdk` (sdk.dfy) is the SDK boundary: exception kinds, replies, bodies, responses and requests.
- `Shaping` (shaping.dfy) holds pure request and result shaping. It covers:
  - the S3 client configuration built by `init`;
  - the `['Bucket', 'Key'] + options` parameter arrays;
  - the ACL choice and the `ContentLength` rule of `upload`;
  - upload's result mapping;
  - the array built by `getHeadObject`;
  - the entry mapping of `listObjects`.
- `Minio` (minio.dfy) holds the component as a class `MinioClient`, with its public properties as fields, including `prefix`, `bucket` and `options`, plus the configuration its S3 client was built with.
  - How state changes: the constructor configures the properties and then runs `Init`, as the framework does. `Init`, `SetPathPrefix` and `SetBucket` write fields.
  - Local step-by-step work: `Upload` changes its local options array step by step, and `GetHeadObject` builds its array one header at a time. Each of these methods is proved against a specification function from `Shaping`.
  - Every operation states which SDK request(s) it issues and what it returns, for every SDK reply.

Where the code departs from what a reader would expect, the model follows the code:

- `setPathPrefix` strips only trailing `/` and `\`. `"/a/b/"` is stored as `"/a/b/"`, not as `"a/b/"` (`Paths.NormalizeExamples`).
- In `upload`, `$this->options + $options` keeps the configured value on a key collision. Per-call options only add missing keys (`Shaping.UploadKeepsConfigured`).
- `listObjects` removes only the facade prefix from each returned key, not the listed directory. Listing `"d"` under prefix `p/` yields `d/a` and `d/b/c`, not `a` and `b/c` (`Shaping.ListEntriesExample`, `Paths.ListedKeyRelative`).
- `removePathPrefix` drops `strlen(prefix)` characters without checking that the key starts with the prefix. The model states exactly that, and `Paths.ApplyRemove` characterises the keys for which it inverts `applyPathPrefix`.
- `listObjects` left-trims `/` from the whole prefix it sends. A stored prefix that starts with `/` is therefore not the prefix of the listing request, although `applyPathPrefix` keeps that `/` in the keys it writes, so such a listing never returns a key the facade wrote (`Paths.ListPrefixDropsLeadingSlash`, `Paths.ListPrefixMissesWrittenKeys`). The exception is a stored prefix of "/" alone with a directory made of separators only, for example `listObjects('')`: the listing prefix is then "" and the whole bucket is listed (`Paths.RootPrefixListsEverything`).
- `deleteDir("")` and `deleteDir("/")` delete under `prefix.'/'`, while `createDir` of the same name writes to the bare prefix (`Paths.DeleteDirMatchesCreateDir`).

## Model

| member | source | states |
|---|---|---|
| Php.IntToDecimal | src/MinioClient.php:227 | the int branch of `(string)`: a non-empty decimal rendering that starts with '-' exactly for a negative integer |
| Php.ToStr | src/MinioClient.php:227 | `(string)` casts a value to "" exactly for null, false and ""; a string casts to itself |
| Php.LTrim | src/MinioClient.php:218 | `ltrim($s, $chars)`, never longer than its input; `LTrimSpec` characterises it uniquely |
| Php.LTrimSpec | src/MinioClient.php:218 | `ltrim` result is a suffix of the input, everything removed is in the character list, and the result does not start with one |
| Php.RTrim | src/MinioClient.php:232 | `rtrim($s, $chars)`, never longer than its input; `RTrimSpec` characterises it uniquely |
| Php.RTrimSpec | src/MinioClient.php:232 | `rtrim` result is a prefix of the input, everything removed is in the character list, and the result does not end with one |
| Php.Substr | src/MinioClient.php:242 | PHP 8 `substr($s, $start)`: `strlen($s) - start` characters, or none once `start` passes the end |
| Php.IsSet | src/MinioClient.php:480 | `isset`: the key is present and its value is not null (also lines 186-196 and 501) |
| Php.Lookup | src/MinioClient.php:490 | a PHP 8 read of an array entry: an absent key reads as null (also lines 137, 150, 163) |
| Php.Plus | src/MinioClient.php:476 | array union has the keys of both operands; the left operand's value wins on a collision, the right one only fills missing keys |
| Php.LTrimAppend | src/MinioClient.php:108 | `ltrim` of `s . t` keeps `t` whole once `s` is not all trimmable characters (used for `dirname.'/'`) |
| Paths.NormalizePrefix | src/MinioClient.php:225-233 | the value `setPathPrefix` stores: null exactly when `(string)$prefix` is ""; `NormalizeSpec` gives the rest |
| Paths.NormalizeSpec | src/MinioClient.php:225-233 | stored prefix is null exactly when `(string)$prefix` is ""; otherwise it ends in exactly one '/', the part before is a prefix of the input (leading separators kept) and only separators were dropped after it |
| Paths.NormalizeIdempotent | src/MinioClient.php:225-233 | setting the prefix to what `getPathPrefix` returns leaves it unchanged |
| Paths.NormalizedIsFixed | src/MinioClient.php:225-233 | a prefix in normal form (null, or ending in exactly one '/') is stored unchanged |
| Paths.NormalizeExamples | src/MinioClient.php:225-233 | "a/b" becomes "a/b/", "/a/b/" stays "/a/b/", "a\\/\\" becomes "a/", "//" becomes "/", and "", null and false become null |
| Paths.Apply | src/MinioClient.php:216-219 | `applyPathPrefix`: the prefix text followed by `ltrim(path,'\\/')`, characterised by `ApplySpec` |
| Paths.ApplySpec | src/MinioClient.php:216-219 | the key starts with the stored prefix; the rest is `path` without its leading `/` and `\` and has no leading separator |
| Paths.Remove | src/MinioClient.php:240-243 | the result is a suffix of the key, `strlen(prefix)` characters shorter, or "" when the key is no longer than the prefix (PHP 8 `substr`) |
| Paths.RemoveApply | src/MinioClient.php:240-243 | `removePathPrefix(applyPathPrefix(p))` is `p` with its leading separators stripped |
| Paths.ApplyRemove | src/MinioClient.php:240-243 | `applyPathPrefix(removePathPrefix(k)) == k` exactly when `k` starts with the prefix and the rest does not start with a separator |
| Paths.ApplyKeepsPrefix | src/MinioClient.php:216-219 | every key starts with the prefix; the key of a path equals the key of its left-trimmed form |
| Paths.IsOnlyDir | src/MinioClient.php:250-253 | `substr($path,-1) === '/'`: the path is non-empty and ends in '/'; `MarkerPaths` shows every `createDir` path is one |
| Paths.MarkerPaths | src/MinioClient.php:106-109 | every `createDir` path `dirname.'/'` is a directory marker in the sense of `isOnlyDir` (lines 250-253) |
| Paths.DeleteDirMatchesCreateDir | src/MinioClient.php:106-125 | the deleteDir prefix `applyPathPrefix(d).'/'` equals the createDir key `applyPathPrefix(d.'/')` exactly when `d` is not made of separators only |
| Paths.ListPrefix | src/MinioClient.php:377-378 | the `Prefix` of `listObjects`: `ltrim(applyPathPrefix(rtrim(d,'/').'/'),'/')`; `ListPrefixIsDirectory`, `ListPrefixAgreesWithApply` and `ListPrefixMissesWrittenKeys` characterise it |
| Paths.ListPrefixAgreesWithApply | src/MinioClient.php:377-378 | when the stored prefix does not start with '/', the listing prefix is `applyPathPrefix(rtrim(d,'/').'/')` |
| Paths.ListPrefixIsDirectory | src/MinioClient.php:377-378 | the listing prefix never starts with '/'; under a normalised prefix it is "" or ends in '/' |
| Paths.ListedKeyRelative | src/MinioClient.php:377-389 | when the stored prefix does not start with '/', a listed key `listPrefix . rest` maps to `ltrim(rtrim(d,'/').'/', '\\/') . rest`: keys are relative to the facade prefix, not to the directory |
| Paths.ListPrefixDropsLeadingSlash | src/MinioClient.php:377-378 | under prefix "/a/" the listing asks for "a/x/" while the keys written keep "/a/" |
| Paths.ListPrefixMissesWrittenKeys | src/MinioClient.php:377-378 | under a stored prefix starting with '/', no non-empty listing prefix is a prefix of any key `applyPathPrefix` writes |
| Paths.RootPrefixListsEverything | src/MinioClient.php:375-378 | under the stored prefix "/", `listObjects('')` asks for the empty prefix, which every written key starts with |
| Shaping.ConfigEntry | src/MinioClient.php:40-53 | the rule for one top-level setting of `init`: its value, or none when it is left out; `ClientConfigFor` and `ConfigForEntries` assemble the entries |
| Shaping.ClientConfigFor | src/MinioClient.php:38-53 | credentials pass through; `region`, `base_url`, `endpoint` appear exactly when not null; `use_path_style_endpoint` appears, true, exactly when the property is identical to true; `debug` is false; `version` falls back to 'latest'; nothing else |
| Shaping.ConfigForEntries | src/MinioClient.php:38-53 | any settings map that agrees entry by entry with the rule is the configuration `init` builds |
| Shaping.KeyedParams | src/MinioClient.php:174-177 | `['Bucket','Key'] + options`: bucket and prefixed key always win; every other configured option is passed unchanged |
| Shaping.AclOf | src/MinioClient.php:477 | ACL is the options' `ACL` entry whenever the key exists (even if null), otherwise 'private' |
| Shaping.KnownLength | src/MinioClient.php:481-488 | the length `upload` can supply: `strlen` of a string body, the fstat size of a resource when there is one |
| Shaping.UploadParams | src/MinioClient.php:479-493 | marker paths leave options unchanged; otherwise a set ContentLength is kept, a missing or null one becomes the body's length (strlen or fstat size) or is removed when unknown; no other key changes; no null ContentLength is sent |
| Shaping.UploadReply | src/MinioClient.php:495-504 | `{path, eTag}` exactly when the SDK returns status 200; false for another status or a multipart-upload exception; every other exception propagates unchanged |
| Shaping.UploadKeepsConfigured | src/MinioClient.php:476-493 | after merge and ContentLength rule, configured options keep their values, per-call options only fill missing keys, and a set configured ContentLength survives |
| Shaping.UploadAcl | src/MinioClient.php:476-477 | the upload ACL is the configured `ACL`, else the per-call `ACL`, else 'private' |
| Shaping.HeadersOf | src/MinioClient.php:185-188 | the headers of a head result, or none at all when `['@metadata']['headers']` is not set |
| Shaping.TimeValue | src/MinioClient.php:197 | what `strtotime` leaves in the array: the timestamp, or false for an unparsable date |
| Shaping.HeadArray | src/MinioClient.php:184-199 | the array `getHeadObject` returns: `path` as given, and each header field present exactly when its header is; `HeadArrayUnique` shows it determines the array |
| Shaping.HeadArrayUnique | src/MinioClient.php:184-199 | the head-object array is fully determined by the path and the headers |
| Shaping.Field | src/MinioClient.php:131-164 | a field read from the head array: false when the object was not found, null when the header was absent |
| Shaping.ListEntries | src/MinioClient.php:383-389 | one entry per returned object, in order, with `key = removePathPrefix(Key)` and size and timestamp copied |
| Shaping.ListEntriesExample | src/MinioClient.php:377-390 | under prefix "p/", listing "d" asks for "p/d/" and maps "p/d/a", "p/d/b/c" to "d/a", "d/b/c" |
| Sdk.IsS3Exception | src/MinioClient.php:180 | the `catch (S3Exception ...)` clauses (also lines 331 and 436) match exactly an S3 exception |
| Sdk.IsAwsException | src/MinioClient.php:95 | the `catch (AwsException ...)` clause matches an S3 exception or any other AWS exception: S3Exception counts as an AwsException |
| Minio.MinioClient.constructor | src/MinioClient.php:35-56 | the configured properties are kept, the prefix is normalised, and the client configuration is `ClientConfigFor` of the properties |
| Minio.MinioClient.Init | src/MinioClient.php:35-56 | builds the client configuration step by step, equal to `ClientConfigFor`; stores the normalised prefix; a second run leaves the prefix unchanged |
| Minio.MinioClient.GetBucket | src/MinioClient.php:70-73 | returns the bucket property |
| Minio.MinioClient.SetBucket | src/MinioClient.php:79-82 | the bucket becomes the argument, nothing else changes |
| Minio.MinioClient.GetPathPrefix | src/MinioClient.php:206-209 | returns the stored prefix |
| Minio.MinioClient.SetPathPrefix | src/MinioClient.php:225-233 | stores `NormalizePrefix` of the argument (null exactly when it casts to ""); nothing else changes |
| Minio.MinioClient.ListBuckets | src/MinioClient.php:88-98 | the SDK's bucket list; [] when the SDK throws an AwsException; other exceptions propagate |
| Minio.MinioClient.Upload | src/MinioClient.php:473-505 | uploads to the prefixed key with the merged options' ACL, the `UploadParams` options and the given body; returns `UploadReply` |
| Minio.MinioClient.Write | src/MinioClient.php:449-452 | uploads a string body; off marker paths, and without a set ContentLength, sends its byte length |
| Minio.MinioClient.WriteStream | src/MinioClient.php:461-464 | uploads a resource; off marker paths, and without a set ContentLength, ContentLength is sent exactly when fstat gives a size |
| Minio.MinioClient.CreateDir | src/MinioClient.php:106-109 | uploads "" to `applyPathPrefix(dirname.'/')` with the merged options unchanged (no ContentLength handling) |
| Minio.MinioClient.DeleteDir | src/MinioClient.php:116-125 | deletes under `applyPathPrefix(dirname).'/'`; true when the SDK returns, false on DeleteMultipleObjectsException, other exceptions propagate |
| Minio.MinioClient.GetHeadObject | src/MinioClient.php:172-200 | head request with `KeyedParams`; false on S3Exception; otherwise `path` is the unprefixed input and each optional field is present exactly when its header is |
| Minio.MinioClient.GetSize | src/MinioClient.php:131-138 | false on S3Exception, null without a content-length header, else the parsed length |
| Minio.MinioClient.GetMimeType | src/MinioClient.php:144-151 | false on S3Exception, null without a content-type header, else the header |
| Minio.MinioClient.GetTimestamp | src/MinioClient.php:157-164 | false on S3Exception, null without a last-modified header, else its parsed timestamp (false when unparsable) |
| Minio.MinioClient.Has | src/MinioClient.php:260-267 | asks whether the prefixed key exists, with the configured options, and returns the answer |
| Minio.MinioClient.ReadObject | src/MinioClient.php:317-334 | getObject with bucket and prefixed key over the configured options, `SaveAs` set only when a save path is given; false on S3Exception |
| Minio.MinioClient.GetObjectUrl | src/MinioClient.php:341-345 | asks for the URL of the prefixed key and returns it |
| Minio.MinioClient.GetPresignedUrl | src/MinioClient.php:353-368 | presigns the prefixed key to expire at `now + duration`, or `now + urlDuration` when duration is 0 |
| Minio.MinioClient.ListObjects | src/MinioClient.php:375-391 | lists under `ListPrefix`; [] for an empty result; otherwise one entry per object, in order, with the prefix removed and size and timestamp copied; exceptions propagate |
| Minio.MinioClient.Delete | src/MinioClient.php:399-408 | deletes the prefixed key (exceptions propagate), then probes existence and returns the negated answer |
| Minio.MinioClient.Copy | src/MinioClient.php:431-440 | copies between the prefixed keys with the ACL from the configured options only; false on S3Exception |
| Minio.MinioClient.Rename | src/MinioClient.php:417-423 | copy first; after a failed copy nothing else is issued and false or the exception is returned; after a successful copy exactly the delete and, when it returned, the existence probe follow, an exception of either propagates, and the result is the negated probe answer |
| Minio.DefaultClientConfig | src/MinioClient.php:27-30 | with the property defaults the client config is exactly path-style true, debug false, version 'latest', with no region, base_url or endpoint |

## Left out

- The S3 SDK. Every SDK call is a `Call` record plus a caller-supplied `Reply`; backend state (for example, that an object is gone after `delete`, `rename` or `deleteDir`) is not modelled. This includes the `new S3Client($config)` construction and its failure, and `getClient`, which hands out that object.
- Stream handling: `read` and `readStream` are `ReadObject` with no save path followed by `Body->getContents()` / `Body->detach()`, which are stream I/O. `save` is `ReadObject` with a save path; writing the file is done by the SDK.
- Clock and parsing: `time()`, `strtotime`, `intval` of headers, `LastModified->getTimestamp()` and `fstat` are inputs (`now`, parsed `Headers`, `S3Object.lastModified`, `Body.Resource.statSize`).
- The framework lifecycle `parent::init()`.
- PHP values are null, booleans, integers (unbounded) and strings (`Value`); floats, arrays as values and 64-bit integer overflow (for example in `time() + $duration`) are not modelled. Option arrays are string-keyed maps. PHP arrays are ordered, so the model does not capture the ORDER of keys in the arrays sent to the SDK.
- Strings are character sequences. `strlen` and `substr` count characters, where PHP counts bytes. The two agree for the ASCII paths and prefixes the facade handles, but the model does not capture multi-byte characters.
- Minio.MinioClient.GetPresignedUrl: the duration is an integer. PHP's `!$duration` also treats null, false, "" and "0" as "use the default", and non-integer durations are not modelled.
- Minio.MinioClient.ListObjects: a result without `Contents`, with `Contents` null, or with empty `Contents` is modelled as an empty sequence. Minio.MinioClient.ListBuckets does the same for `Buckets`.
- Shaping.KnownLength: `fstat`'s `is_array($stat) || isset($stat['size'])` test is reduced to whether a size is available.
- Exceptions are taken as thrown by the named SDK call only. PHP warnings and deprecations (such as `strlen(null)`) and PHP versions before 8 are not modelled.
