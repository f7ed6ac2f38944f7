/** The boundary to the AWS S3 SDK. Nothing here simulates a store: every SDK
    call the facade makes is recorded as a `Call` value (what the facade asks
    for), and what the SDK answers is an opaque `Reply` supplied by the
    caller of the model (a payload, or the exception it throws). */
module Sdk {
  import opened Php

  /** The exception classes the facade distinguishes. */
  datatype SdkError =
    | S3Error                     // Aws\S3\Exception\S3Exception
    | OtherAwsError               // any other Aws\Exception\AwsException
    | MultipartUploadError        // Aws\S3\Exception\S3MultipartUploadException
    | DeleteMultipleObjectsError  // Aws\S3\Exception\DeleteMultipleObjectsException
    | OtherError                  // anything else

  /** `catch (S3Exception $e)` */
  predicate IsS3Exception(e: SdkError)
  {
    e == S3Error
  }

  /** `catch (AwsException $e)`: S3Exception is one of its subclasses. */
  predicate IsAwsException(e: SdkError)
  {
    e == S3Error || e == OtherAwsError
  }

  /** What an SDK call does, and also what a facade operation does for its
      own caller: return a value, or throw. */
  datatype Reply<T> = Returns(value: T) | Throws(error: SdkError)

  /** The unit payload of a call whose result the facade ignores. */
  datatype Done = Done

  /** The body `upload` sends: a PHP string, or a stream resource together
      with the size `fstat` reports for it (none when `fstat` fails). */
  datatype Body = Text(bytes: seq<byte>) | Resource(handle: nat, statSize: Option<nat>)

  /** The parts of `client->upload(...)->toArray()` the facade reads:
      `['@metadata']['statusCode']` and `['ETag']` (null when absent). */
  datatype UploadResponse = UploadResponse(statusCode: Option<int>, eTag: Value)

  /** A `last-modified` header after `strtotime`: a timestamp, or `false`. */
  datatype Time = Epoch(seconds: int) | Unparsable

  /** The response headers `getHeadObject` looks at, already parsed
      (`intval` of content-length, `strtotime` of last-modified). */
  datatype Headers = Headers(contentLength: Option<int>, contentType: Option<string>, lastModified: Option<Time>)

  /** A headObject result: `['@metadata']['headers']` may be missing. */
  datatype HeadResponse = HeadResponse(headers: Option<Headers>)

  /** A getObject result; the bytes stand for the contents of its body stream,
      whose stream handling is not modelled. */
  datatype ObjectResponse = ObjectResponse(body: seq<byte>)

  /** One element of a listObjects result's `Contents`, with the
      `LastModified` date already turned into a timestamp. */
  datatype S3Object = S3Object(key: string, size: Value, lastModified: int)

  /** The SDK requests the facade issues. `params` is the array handed to
      `getCommand` (for upload, the `'params'` option). */
  datatype Call =
    | ListBucketsCall
    | HeadObjectCall(params: map<string, Value>)
    | GetObjectCall(params: map<string, Value>)
    | DoesObjectExistCall(bucket: Value, key: string, options: map<string, Value>)
    | DeleteObjectCall(bucket: Value, key: string)
    | DeleteMatchingCall(bucket: Value, prefix: string)
    | CopyCall(fromBucket: Value, fromKey: string, toBucket: Value, toKey: string, acl: Value, options: map<string, Value>)
    | UploadCall(bucket: Value, key: string, body: Body, acl: Value, params: map<string, Value>)
    | ListObjectsCall(bucket: Value, prefix: string)
    | GetObjectUrlCall(bucket: Value, key: string)
    | PresignCall(bucket: Value, key: string, expires: int)
}
