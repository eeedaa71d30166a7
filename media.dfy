/**
 * The remote image host behind `cloudinary.uploader.upload`, as an oracle: the n-th
 * upload call of an image yields its `secure_url`, or fails (throws).
 */
module Media {
  import opened Wrappers

  /**
   * The URLs a sequential upload of `images` collects before its first failure, when the
   * first of these calls is call number `start`.
   */
  function UploadPrefix(service: (nat, string) -> Option<string>, start: nat, images: seq<string>): (urls: seq<string>)
    ensures |urls| <= |images|
    decreases |images|
  {
    if images == [] then []
    else match service(start, images[0])
      case None => []
      case Some(url) => [url] + UploadPrefix(service, start + 1, images[1..])
  }

  /**
   * What the collected URLs are: the i-th is what the i-th call returned, and when the
   * upload stopped short, the next call failed.
   */
  predicate Collected(service: (nat, string) -> Option<string>, start: nat, images: seq<string>, urls: seq<string>)
  {
    && |urls| <= |images|
    && (forall i :: 0 <= i < |urls| ==> service(start + i, images[i]) == Some(urls[i]))
    && (|urls| < |images| ==> service(start + |urls|, images[|urls|]).None?)
  }

  /** The upload collects URLs that fit the calls' outcomes. */
  lemma {:induction false} UploadPrefixCollected(service: (nat, string) -> Option<string>, start: nat, images: seq<string>)
    ensures Collected(service, start, images, UploadPrefix(service, start, images))
    decreases |images|
  {
    if images != [] && service(start, images[0]).Some? {
      var rest := UploadPrefix(service, start + 1, images[1..]);
      UploadPrefixCollected(service, start + 1, images[1..]);
      var urls := UploadPrefix(service, start, images);
      assert urls == [service(start, images[0]).value] + rest;
      forall i | 0 <= i < |urls|
        ensures service(start + i, images[i]) == Some(urls[i])
      {
        if i > 0 {
          assert service(start + 1 + (i - 1), images[1..][i - 1]) == Some(rest[i - 1]);
        }
      }
      if |urls| < |images| {
        assert service(start + 1 + |rest|, images[1..][|rest|]).None?;
      }
    }
  }

  /** And they are the only URLs that do. */
  lemma {:induction false} UploadPrefixUnique(service: (nat, string) -> Option<string>, start: nat,
                                              images: seq<string>, urls: seq<string>)
    requires Collected(service, start, images, urls)
    ensures urls == UploadPrefix(service, start, images)
    decreases |images|
  {
    if images != [] {
      if urls == [] {
        assert service(start, images[0]).None?;
      } else {
        assert service(start + 0, images[0]) == Some(urls[0]);
        forall i | 0 <= i < |urls[1..]|
          ensures service(start + 1 + i, images[1..][i]) == Some(urls[1..][i])
        {
          assert service(start + (i + 1), images[i + 1]) == Some(urls[i + 1]);
        }
        if |urls[1..]| < |images[1..]| {
          assert service(start + |urls|, images[|urls|]).None?;
          assert start + 1 + |urls[1..]| == start + |urls|;
        }
        UploadPrefixUnique(service, start + 1, images[1..], urls[1..]);
      }
    }
  }

  /** Every image was uploaded. */
  predicate AllUploaded(service: (nat, string) -> Option<string>, start: nat, images: seq<string>)
  {
    |UploadPrefix(service, start, images)| == |images|
  }

  /** The number of upload calls made: all of them, or up to and including the one that failed. */
  function UploadCalls(service: (nat, string) -> Option<string>, start: nat, images: seq<string>): (n: nat)
    ensures n <= |images|
    ensures n == |images| <== AllUploaded(service, start, images)
  {
    var urls := UploadPrefix(service, start, images);
    if |urls| == |images| then |images| else |urls| + 1
  }

  /** Every image was uploaded exactly when every call succeeded. */
  lemma AllUploadedIff(service: (nat, string) -> Option<string>, start: nat, images: seq<string>)
    ensures AllUploaded(service, start, images) <==> forall i :: 0 <= i < |images| ==> service(start + i, images[i]).Some?
  {
    UploadPrefixCollected(service, start, images);
  }

  /** The client of the image host; `calls` records each image sent, in order. */
  class Uploader {
    const service: (nat, string) -> Option<string>
    var calls: seq<string>

    constructor (host: (nat, string) -> Option<string>)
      ensures service == host && calls == []
    {
      service := host;
      calls := [];
    }

    /** `await cloudinary.uploader.upload(image)`: the secure URL, or `None` where it throws. */
    method Upload(image: string) returns (url: Option<string>)
      modifies this
      ensures calls == old(calls) + [image]
      ensures url == service(|old(calls)|, image)
    {
      url := service(|calls|, image);
      calls := calls + [image];
    }
  }
}
