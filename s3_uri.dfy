/**
 * `parse_s3_uri`: split an S3 URI into its bucket and its key.
 */
module S3Uri {
  import opened PyText

  const Scheme := "s3://"

  /** `uri.replace("s3://", "")`: every occurrence is dropped, not only a leading one. */
  function Stripped(uri: string): string {
    RemoveAll(uri, Scheme)
  }

  /**
   * `parse_s3_uri` as written: strip, split on "/", keep the first part as
   * the bucket and join the rest back with "/" as the key.
   */
  function ParseS3Uri(uri: string): (r: (string, string))
    ensures '/' !in r.0
    ensures var s := Stripped(uri);
      if '/' in s then r.0 == s[..FirstIndex(s, '/')] && r.0 + "/" + r.1 == s
      else r.0 == s && r.1 == ""
  {
    BucketAndKey(Stripped(uri))
  }

  /** `parts = s.split("/")`, then `(parts[0], "/".join(parts[1:]))`: the text
      before the first "/" and the text after it. */
  function BucketAndKey(s: string): (r: (string, string))
    ensures '/' !in r.0
    ensures if '/' in s then r.0 == s[..FirstIndex(s, '/')] && r.0 + "/" + r.1 == s
      else r.0 == s && r.1 == ""
  {
    SplitCut(s);
    var parts := Split(s, '/');
    (parts[0], Join(parts[1..], '/'))
  }

  lemma SplitCut(s: string)
    ensures var parts := Split(s, '/');
      '/' in s ==> parts[0] == s[..FirstIndex(s, '/')] && parts[0] + "/" + Join(parts[1..], '/') == s
  {
    if '/' in s {
      var i := FirstIndex(s, '/');
      SplitHead(s, '/');
      var head, tail := s[..i], s[i + 1..];
      assert head + "/" == s[..i + 1];
      assert s[..i + 1] + tail == s;
    }
  }

  /** A bucket and key with no "s3://" inside come back unchanged. */
  lemma ParseS3UriRoundTrip(bucket: string, key: string)
    requires '/' !in bucket
    requires forall i: nat :: !OccursAt(bucket + "/" + key, Scheme, i)
    ensures ParseS3Uri(Scheme + bucket + "/" + key) == (bucket, key)
  {
    var rest := bucket + "/" + key;
    assert (Scheme + rest)[..|Scheme|] == Scheme;
    assert (Scheme + rest)[|Scheme|..] == rest;
    RemoveAllAbsent(rest, Scheme);
    assert Stripped(Scheme + bucket + "/" + key) == rest by {
      assert Scheme + bucket + "/" + key == Scheme + rest;
    }
    assert rest[|bucket|] == '/';
    assert rest[..|bucket|] == bucket;
    FirstIndexUnique(rest, '/', |bucket|);
  }

  /** A key that itself holds "s3://" is altered: `s3://b/s3://k` parses to key `k`. */
  lemma ParseS3UriAltersKey()
    ensures ParseS3Uri("s3://b/s3://k") == ("b", "k")
    ensures ParseS3Uri("s3://b/s3://k") != ("b", "s3://k")
  {
    var uri := "s3://b/s3://k";
    assert uri[..5] == Scheme;
    assert uri[5..] == "b/s3://k";
    var t := "b/s3://k";
    assert t[..5][0] != Scheme[0];
    assert t[1..] == "/s3://k";
    var u := "/s3://k";
    assert u[..5][0] != Scheme[0];
    assert u[1..] == "s3://k";
    assert u[1..][..5] == Scheme;
    assert u[1..][5..] == "k";
    assert RemoveAll("k", Scheme) == "k";
    assert Stripped(uri) == "b/k";
    assert "b/k"[1] == '/' && "b/k"[..1] == "b";
    FirstIndexUnique("b/k", '/', 1);
  }

  /** Every inner "s3://" is removed too: a key `a + "s3://" + b`, whose only
      inner scheme is the one shown, parses to the key `a + b`. */
  lemma ParseS3UriDropsInnerScheme(bucket: string, a: string, b: string)
    requires '/' !in bucket
    requires forall i: nat :: i < |bucket + "/" + a| ==> !OccursAt(bucket + "/" + a + Scheme + b, Scheme, i)
    requires forall i: nat :: !OccursAt(b, Scheme, i)
    ensures ParseS3Uri(Scheme + bucket + "/" + a + Scheme + b) == (bucket, a + b)
  {
    var front := bucket + "/" + a;
    assert Scheme + bucket + "/" + a + Scheme + b == Scheme + front + Scheme + b;
    RemoveAllTwo(front, b, Scheme);
    assert front + b == bucket + "/" + (a + b);
    BucketAndKeyOf(bucket, a + b);
  }

  /** A bucket without "/" and any key split back apart. */
  lemma BucketAndKeyOf(bucket: string, key: string)
    requires '/' !in bucket
    ensures BucketAndKey(bucket + "/" + key) == (bucket, key)
  {
    var s := bucket + "/" + key;
    assert s[|bucket|] == '/';
    assert s[..|bucket|] == bucket;
    FirstIndexUnique(s, '/', |bucket|);
    assert s[|bucket| + 1..] == key;
  }

  /** The evident intent: drop a leading "s3://" only. */
  function StrippedPrefix(uri: string): string {
    if StartsWith(uri, Scheme) then uri[|Scheme|..] else uri
  }

  /** `parse_s3_uri` with only the leading scheme removed. */
  function ParseS3UriPrefix(uri: string): (r: (string, string))
    ensures '/' !in r.0
    ensures var s := StrippedPrefix(uri);
      if '/' in s then r.0 == s[..FirstIndex(s, '/')] && r.0 + "/" + r.1 == s
      else r.0 == s && r.1 == ""
  {
    BucketAndKey(StrippedPrefix(uri))
  }

  /** Every bucket without "/" and every key, "s3://" inside it or not, come back. */
  lemma ParseS3UriPrefixRoundTrip(bucket: string, key: string)
    requires '/' !in bucket
    ensures ParseS3UriPrefix(Scheme + bucket + "/" + key) == (bucket, key)
  {
    var rest := bucket + "/" + key;
    assert Scheme + bucket + "/" + key == Scheme + rest;
    assert (Scheme + rest)[..|Scheme|] == Scheme;
    assert (Scheme + rest)[|Scheme|..] == rest;
    assert rest[|bucket|] == '/';
    assert rest[..|bucket|] == bucket;
    FirstIndexUnique(rest, '/', |bucket|);
  }
}
