/** The string handling of lib/actions/s3.actions.ts: the object key and the
    public URL `uploadToS3` builds, and the key `deleteFromS3` recovers from
    such a URL. The bucket and region are the deployment's configuration;
    whether the storage service accepts a request is a parameter. */
module S3Actions {
  import opened Common
  import opened Strings

  const Marker := ".com/"

  /** The object key: the upload's UUID, a dash, and the file's name. */
  function ObjectKey(uuid: string, name: string): (key: string)
    ensures |key| == |uuid| + 1 + |name|
    ensures key[..|uuid|] == uuid && key[|uuid|] == '-' && key[|uuid| + 1..] == name
  {
    var key := uuid + "-" + name;
    assert key[..|uuid|] == uuid;
    assert key[|uuid| + 1..] == name;
    key
  }

  /** The part of the public URL in front of ".com/". */
  function UrlHost(bucket: string, region: string): string {
    "https://" + bucket + ".s3." + region + ".amazonaws"
  }

  /** The virtual-hosted-style public URL of an object: an https URL that
      ends with the key, and from which the reference reading of the
      bucket's URLs recovers the key. */
  function PublicUrl(bucket: string, region: string, key: string): (url: string)
    ensures KeyOf(url, bucket, region) == Some(key)
    ensures |url| >= 8 + |key| && url[..8] == "https://"
    ensures url[|url| - |key|..] == key
  {
    var url := "https://" + bucket + ".s3." + region + ".amazonaws.com/" + key;
    assert url == UrlHost(bucket, region) + Marker + key;
    assert url[..8] == "https://";
    assert url[|url| - |key|..] == key;
    assert url[..|UrlHost(bucket, region) + Marker|] == UrlHost(bucket, region) + Marker;
    url
  }

  datatype Upload = Uploaded(url: string) | UploadFailed(message: string)

  /** `uploadToS3`. `size` and `name` describe the file, `uuid` is the value
      `uuidv4()` produces and `sent` whether the storage service accepted the
      put. Every failure, the empty-file check included, is rethrown with the
      same message. */
  function UploadToS3(size: nat, name: string, uuid: string, bucket: string, region: string, sent: bool): (r: Upload)
    ensures r.UploadFailed? <==> size == 0 || !sent
    ensures r.UploadFailed? ==> r.message == "Failed to upload file to S3"
    ensures r.Uploaded? ==> KeyOf(r.url, bucket, region) == Some(ObjectKey(uuid, name))
  {
    if size == 0 || !sent then UploadFailed("Failed to upload file to S3")
    else Uploaded(PublicUrl(bucket, region, ObjectKey(uuid, name)))
  }

  /** The reference reading of an upload URL: the key is whatever follows the
      host part and the marker. */
  function KeyOf(url: string, bucket: string, region: string): (key: Option<string>)
    ensures key.Some? <==> |url| >= |UrlHost(bucket, region) + Marker| && url[..|UrlHost(bucket, region) + Marker|] == UrlHost(bucket, region) + Marker
    ensures key.Some? ==> url == UrlHost(bucket, region) + Marker + key.value
  {
    var prefix := UrlHost(bucket, region) + Marker;
    if |url| >= |prefix| && url[..|prefix|] == prefix then
      assert url == prefix + url[|prefix|..];
      Some(url[|prefix|..])
    else None
  }

  /** `url.split(".com/")[1]`: the text between the first ".com/" and the
      next one (or the end); absent (`undefined`) when there is no ".com/". */
  function KeyFromUrl(url: string): (key: Option<string>)
    ensures key.None? <==> !Contains(url, Marker)
    ensures key.Some? ==> !Contains(key.value, Marker)
    // the key starts right after the first ".com/" and runs to the end of
    // the URL or to the next ".com/"
    ensures key.Some? ==> Find(url, Marker).Some? && PieceAfter(url, Find(url, Marker).value + |Marker|, key.value)
  {
    match Find(url, Marker)
    case None => None
    case Some(i) =>
      SecondPieceAfter(url, i);
      SplitPiecesClean(url, Marker);
      Some(Split(url, Marker)[1])
  }

  /** The second piece of a split on ".com/" is the text right after the
      first ".com/", up to the next one or the end. */
  lemma SecondPieceAfter(url: string, i: nat)
    requires Find(url, Marker) == Some(i)
    ensures |Split(url, Marker)| >= 2
    ensures PieceAfter(url, i + |Marker|, Split(url, Marker)[1])
  {
    SecondPiece(url, Marker, i);
    assert Split(url, Marker)[1] == UpToMarker(url[i + |Marker|..]);
    PieceAt(url, i + |Marker|);
  }

  /** The text before the first ".com/", or all of it when there is none. */
  function UpToMarker(rest: string): string {
    match Find(rest, Marker)
    case None => rest
    case Some(j) => rest[..j]
  }

  /** The text from `start` up to the next ".com/" (or the end) sits in
      `url` right there, and is followed by ".com/" or the end. */
  lemma PieceAt(url: string, start: nat)
    requires start <= |url|
    ensures PieceAfter(url, start, UpToMarker(url[start..]))
  {
    match Find(url[start..], Marker)
    case None =>
    case Some(j) => OccursAfter(url, Marker, start, j);
  }

  /** An occurrence in a suffix is an occurrence in the whole string. */
  lemma OccursAfter(s: string, sep: string, start: nat, j: nat)
    requires start <= |s| && OccursAt(s[start..], sep, j)
    ensures OccursAt(s, sep, start + j)
  {
    assert s[start..][j..j + |sep|] == s[start + j..start + j + |sep|];
  }

  /** `piece` sits in `url` at `start` and is followed by ".com/" or the end. */
  ghost predicate PieceAfter(url: string, start: nat, piece: string) {
    && start + |piece| <= |url|
    && url[start..start + |piece|] == piece
    && (start + |piece| == |url| || OccursAt(url, Marker, start + |piece|))
  }

  datatype Deletion = Deletion(success: bool, message: string)

  /** `deleteFromS3`. `sent` is whether the storage service accepts the
      delete of a defined key; a request without a key is refused by the
      client before it is sent. The action never throws. */
  function DeleteFromS3(url: string, sent: bool): (r: Deletion)
    ensures r == Deletion(true, "Deleted successfully") || r == Deletion(false, "Failed to delete file from S3")
    ensures r.success <==> Contains(url, Marker) && sent
  {
    if KeyFromUrl(url).Some? && sent then Deletion(true, "Deleted successfully")
    else Deletion(false, "Failed to delete file from S3")
  }

  /** A ".com/" at `n` is the first one when no slash before it (counting
      the slash that would end an earlier one) sits four places after a dot. */
  lemma FirstMarkerAt(s: string, n: nat)
    requires n + 5 <= |s| && s[n..n + 5] == Marker
    requires forall m :: 4 <= m < n + 4 && s[m] == '/' ==> s[m - 4] != '.'
    ensures Find(s, Marker) == Some(n)
  {
    assert OccursAt(s, Marker, n);
    forall j | 0 <= j < n ensures !OccursAt(s, Marker, j) {
      MarkerEnds(s, j);
    }
  }

  lemma MarkerEnds(s: string, j: nat)
    ensures OccursAt(s, Marker, j) ==> s[j] == '.' && s[j + 4] == '/'
  {
    if OccursAt(s, Marker, j) {
      assert s[j..j + 5][0] == s[j];
      assert s[j..j + 5][4] == s[j + 4];
    }
  }

  /** In the host part, a slash only appears in the scheme's "//". */
  lemma HostSlashes(bucket: string, region: string, m: nat)
    requires '/' !in bucket && '/' !in region
    requires m < |UrlHost(bucket, region)| && UrlHost(bucket, region)[m] == '/'
    ensures m == 6 || m == 7
  {
    var h := UrlHost(bucket, region);
    assert h == "https://" + bucket + ".s3." + region + ".amazonaws";
  }

  /** With a bucket and region free of slashes, the first ".com/" of an upload
      URL is the one that ends the host part. */
  lemma FirstMarkerEndsHost(bucket: string, region: string, key: string)
    requires '/' !in bucket && '/' !in region
    ensures Find(PublicUrl(bucket, region, key), Marker) == Some(|UrlHost(bucket, region)|)
  {
    var h := UrlHost(bucket, region);
    var url := PublicUrl(bucket, region, key);
    assert url[|h|..|h| + 5] == Marker;
    forall m | 4 <= m < |h| + 4 && url[m] == '/' ensures url[m - 4] != '.' {
      if m < |h| {
        HostSlashes(bucket, region, m);
        assert url[..8] == "https://";
        assert url[m - 4] == url[..8][m - 4];
      }
    }
    FirstMarkerAt(url, |h|);
  }

  /** The round trip: for a bucket and region without slashes and a key that
      does not contain ".com/", `deleteFromS3` recovers exactly the key
      `uploadToS3` stored the object under. */
  lemma {:induction false} KeyRoundTrip(bucket: string, region: string, key: string)
    requires '/' !in bucket && '/' !in region
    requires !Contains(key, Marker)
    ensures KeyFromUrl(PublicUrl(bucket, region, key)) == Some(key)
  {
    var h := UrlHost(bucket, region);
    var url := PublicUrl(bucket, region, key);
    FirstMarkerEndsHost(bucket, region, key);
    SecondPiece(url, Marker, |h|);
    assert url[|h| + |Marker|..] == key;
  }

  /** The upload followed by the delete of its URL recovers the object key. */
  lemma UploadThenDelete(size: nat, name: string, uuid: string, bucket: string, region: string)
    requires size > 0 && '/' !in bucket && '/' !in region
    requires !Contains(ObjectKey(uuid, name), Marker)
    ensures var r := UploadToS3(size, name, uuid, bucket, region, true);
            r.Uploaded? && KeyFromUrl(r.url) == Some(ObjectKey(uuid, name))
            && DeleteFromS3(r.url, true) == Deletion(true, "Deleted successfully")
  {
    KeyRoundTrip(bucket, region, ObjectKey(uuid, name));
  }

  /** Keeping ".com/" out of the bucket, region and key is not enough for the
      round trip: a region that starts with "com/" meets the ".s3." in front
      of it, and what is read back is the rest of the region followed by
      ".amazonaws", whatever the key. */
  lemma {:induction false} RegionWithSlashBreaksRoundTrip(bucket: string, tail: string, key: string)
    requires '/' !in bucket && '/' !in tail
    ensures KeyFromUrl(PublicUrl(bucket, "com/" + tail, key)) == Some(tail + ".amazonaws")
  {
    var region := "com/" + tail;
    var url := PublicUrl(bucket, region, key);
    var n := |"https://" + bucket + ".s3"|;
    EarlyMarker(bucket, tail, key);
    var rest := url[n + |Marker|..];
    TailMarker(tail, key);
    SecondPiece(url, Marker, n);
  }

  lemma RegionWithoutMarker(tail: string)
    requires '/' !in tail
    ensures !Contains("com/" + tail, Marker)
  {
    forall j | 0 <= j ensures !OccursAt("com/" + tail, Marker, j) {
      MarkerEnds("com/" + tail, j);
    }
  }

  /** The first ".com/" of such a URL is the one right after ".s3". */
  lemma EarlyMarker(bucket: string, tail: string, key: string)
    requires '/' !in bucket
    ensures var a := "https://" + bucket + ".s3";
            && PublicUrl(bucket, "com/" + tail, key) == a + Marker + (tail + ".amazonaws.com/" + key)
            && Find(PublicUrl(bucket, "com/" + tail, key), Marker) == Some(|a|)
            && PublicUrl(bucket, "com/" + tail, key)[|a| + |Marker|..] == tail + ".amazonaws.com/" + key
  {
    var url := PublicUrl(bucket, "com/" + tail, key);
    var a := "https://" + bucket + ".s3";
    assert url == a + Marker + (tail + ".amazonaws.com/" + key);
    assert url[|a|..|a| + 5] == Marker;
    forall m | 4 <= m < |a| + 4 && url[m] == '/' ensures url[m - 4] != '.' {
      if m < |a| {
        assert a[m] == '/';
        assert url[m - 4] == a[m - 4];
      }
    }
    FirstMarkerAt(url, |a|);
    assert url[|a| + |Marker|..] == tail + ".amazonaws.com/" + key;
  }

  /** After it, the next ".com/" is the one that ends the host part. */
  lemma TailMarker(tail: string, key: string)
    requires '/' !in tail
    ensures Find(tail + ".amazonaws.com/" + key, Marker) == Some(|tail| + 10)
    ensures (tail + ".amazonaws.com/" + key)[..|tail| + 10] == tail + ".amazonaws"
  {
    var rest := tail + ".amazonaws.com/" + key;
    var n := |tail| + 10;
    assert rest[n..n + 5] == Marker;
    forall m | 4 <= m < n + 4 && rest[m] == '/' ensures rest[m - 4] != '.' {
      if m >= |tail| {
        assert rest[m] == ".amazonaws.com/"[m - |tail|];
      }
    }
    FirstMarkerAt(rest, n);
    assert rest[..n] == tail + ".amazonaws";
  }

  /** A concrete instance: region "com/x", key "k", and "x.amazonaws" comes back. */
  lemma RoundTripCounterexample()
    ensures !Contains("com/x", Marker) && !Contains("k", Marker)
    ensures KeyFromUrl(PublicUrl("b", "com/x", "k")) == Some("x.amazonaws")
  {
    RegionWithSlashBreaksRoundTrip("b", "x", "k");
    RegionWithoutMarker("x");
    assert "com/" + "x" == "com/x";
    assert "x" + ".amazonaws" == "x.amazonaws";
  }
}
