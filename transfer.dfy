/**
 * Uploading an output directory (coco_agent/remote/transfer.py): the bucket is the one given, or
 * one named after the customer; the bucket subpath is normalised to a prefix; every regular file
 * of the directory is written to the bucket under the prefix and its own name, in listing order.
 *
 * Reading the credentials, the storage client and the directory listing are not modelled: the
 * listing is given as its entries, and the plan of writes is returned.
 */
module Transfer {
  import opened Results
  import opened Text
  import opened Identifiers

  const BucketPrefix := "cc-upload-"

  const NoBucket := ValueError("Specify bucket name explicitly, or provide a customer id")

  /** _bucket_name_from_customer_id: bucket names hold lower-case letters only, so the encoded id
      is lowered. */
  function BucketNameFromCustomerId(ids: IdScheme, customerId: string): (r: string)
    ensures |r| == |BucketPrefix| + |ids.encode(customerId)|
    ensures r[..|BucketPrefix|] == BucketPrefix
    ensures forall i :: |BucketPrefix| <= i < |r| ==> !('A' <= r[i] <= 'Z')
    ensures forall i :: 0 <= i < |ids.encode(customerId)| ==> LowerChar(r[|BucketPrefix| + i]) == LowerChar(ids.encode(customerId)[i])
  {
    BucketPrefix + Lower(ids.encode(customerId))
  }

  /** The subpath prefix: empty without a subpath, else the subpath with its leading and trailing
      slashes stripped and one slash appended. */
  function SubpathPrefix(subpath: Option<string>): (p: string)
    ensures !Truthy(subpath) ==> p == ""
    ensures Truthy(subpath) ==> |p| >= 1 && p[|p| - 1] == '/'
  {
    if Truthy(subpath) then StripChar(subpath.value, '/') + "/" else ""
  }

  /** The prefix is the part of the subpath between its leading and its trailing slashes. */
  lemma SubpathPrefixStrips(s: string)
    requires s != ""
    ensures exists lo, hi :: && 0 <= lo <= hi <= |s| && SubpathPrefix(Some(s)) == s[lo..hi] + "/"
                             && (forall k :: 0 <= k < lo ==> s[k] == '/')
                             && (forall k :: hi <= k < |s| ==> s[k] == '/')
                             && (lo < hi ==> s[lo] != '/' && s[hi - 1] != '/')
  {
    var lo, hi := StripBounds(s);
  }

  /** Where the stripped subpath starts and ends. */
  lemma StripBounds(s: string) returns (lo: nat, hi: nat)
    ensures && lo <= hi <= |s| && StripChar(s, '/') == s[lo..hi]
            && (forall k :: 0 <= k < lo ==> s[k] == '/')
            && (forall k :: hi <= k < |s| ==> s[k] == '/')
            && (lo < hi ==> s[lo] != '/' && s[hi - 1] != '/')
  {
    var l := LStripChar(s, '/');
    var r := RStripChar(l, '/');
    lo := |s| - |l|;
    hi := lo + |r|;
    SliceOfSuffix(s, lo, |r|);
    forall k | hi <= k < |s| ensures s[k] == '/' {
      assert s[k] == s[lo..][k - lo];
    }
    if lo < hi {
      assert s[lo] == l[0] == r[0];
    }
  }

  lemma SliceOfSuffix(s: string, lo: nat, n: nat)
    requires lo + n <= |s|
    ensures s[lo..][..n] == s[lo..lo + n]
  {}

  /** The stripped subpath neither starts nor ends with a slash. */
  lemma StrippedShape(s: string)
    ensures var r := RStripChar(LStripChar(s, '/'), '/');
            SubpathPrefix(Some(s)) == (if s == "" then "" else r + "/")
            && (r == [] || (r[0] != '/' && r[|r| - 1] != '/'))
  {
    var l := LStripChar(s, '/');
    var r := RStripChar(l, '/');
    if r != [] {
      assert r[0] == l[0];
    }
  }

  /** A prefix is already normalised: normalising it again changes nothing. */
  lemma SubpathPrefixIdempotent(subpath: Option<string>)
    requires Truthy(subpath)
    ensures SubpathPrefix(Some(SubpathPrefix(subpath))) == SubpathPrefix(subpath)
  {
    var s := subpath.value;
    StrippedShape(s);
    var r := RStripChar(LStripChar(s, '/'), '/');
    var p := r + "/";
    assert SubpathPrefix(subpath) == p;
    StrippedShape(p);
    if r == [] {
      assert p == "/";
      assert LStripChar(p, '/') == "" by { assert p[1..] == ""; }
    } else {
      assert LStripChar(p, '/') == p by { assert p[0] == r[0]; }
      assert RStripChar(p, '/') == r by { assert p[..|p| - 1] == r; }
    }
  }

  /** One entry of the directory listing: its name and whether it is a regular file. */
  datatype Entry = Entry(name: string, isFile: bool)

  /** One write: the local path, the bucket and the name in the bucket. */
  datatype Upload = Upload(localPath: string, bucket: string, bucketFileName: string)

  /** The names of the regular files of the listing, in listing order. */
  function RegularFiles(listing: seq<Entry>): (files: seq<string>)
    ensures |files| <= |listing|
    ensures forall f :: f in files <==> exists k :: 0 <= k < |listing| && listing[k].isFile && listing[k].name == f
    decreases |listing|
  {
    if listing == [] then []
    else
      var rest := RegularFiles(listing[1..]);
      assert forall k :: 0 <= k < |listing[1..]| ==> listing[1..][k] == listing[k + 1];
      (if listing[0].isFile then [listing[0].name] else []) + rest
  }

  /** Listing a sequence in two parts lists the regular files of the first part, then those of the
      second: the listing's order is kept. */
  lemma {:induction false} RegularFilesAppend(a: seq<Entry>, b: seq<Entry>)
    ensures RegularFiles(a + b) == RegularFiles(a) + RegularFiles(b)
    decreases |a|
  {
    if a == [] {
      assert a + b == b;
    } else {
      assert (a + b)[0] == a[0];
      assert (a + b)[1..] == a[1..] + b;
      RegularFilesAppend(a[1..], b);
    }
  }

  /** A directory listing names each entry once. */
  predicate DistinctNames(listing: seq<Entry>) {
    forall i, j :: 0 <= i < j < |listing| ==> listing[i].name != listing[j].name
  }

  predicate NoDuplicates(names: seq<string>) {
    forall i, j :: 0 <= i < j < |names| ==> names[i] != names[j]
  }

  /** Distinct entry names give distinct regular-file names. */
  lemma {:induction false} RegularFilesDistinct(listing: seq<Entry>)
    requires DistinctNames(listing)
    ensures NoDuplicates(RegularFiles(listing))
    decreases |listing|
  {
    if listing != [] {
      var tail := listing[1..];
      assert DistinctNames(tail) by {
        forall i, j | 0 <= i < j < |tail| ensures tail[i].name != tail[j].name {
          assert tail[i] == listing[i + 1] && tail[j] == listing[j + 1];
        }
      }
      RegularFilesDistinct(tail);
      var rest := RegularFiles(tail);
      if listing[0].isFile {
        var files := RegularFiles(listing);
        assert files == [listing[0].name] + rest;
        assert listing[0].name !in rest by {
          forall k | 0 <= k < |tail| ensures tail[k].name != listing[0].name {
            assert tail[k] == listing[k + 1];
          }
        }
        forall i, j | 0 <= i < j < |files| ensures files[i] != files[j] {
          assert files[j] == rest[j - 1];
          if i == 0 {
            assert files[i] == listing[0].name;
            assert rest[j - 1] in rest;
          } else {
            assert files[i] == rest[i - 1];
          }
        }
      } else {
        assert RegularFiles(listing) == rest;
      }
    }
  }

  /** What upload_dir_to_gcs writes. */
  function UploadPlan(ids: IdScheme, dir: string, listing: seq<Entry>, customerId: Option<string>,
                      bucketName: Option<string>, subpath: Option<string>): (r: Result<seq<Upload>>)
    ensures r.Err? <==> !Truthy(bucketName) && !Truthy(customerId)
    ensures r.Err? ==> r.error == NoBucket
  {
    if !Truthy(bucketName) && !Truthy(customerId) then Err(NoBucket)
    else
      var bucket := if Truthy(bucketName) then bucketName.value else BucketNameFromCustomerId(ids, customerId.value);
      var prefix := SubpathPrefix(subpath);
      var files := RegularFiles(listing);
      Ok(seq(|files|, k requires 0 <= k < |files| => Upload(JoinPath(dir, files[k]), bucket, prefix + files[k])))
  }

  /** Each regular file is written once, in listing order, to the given bucket, or else the
      customer's, under the prefix and its own name. */
  lemma UploadPlanWrites(ids: IdScheme, dir: string, listing: seq<Entry>, customerId: Option<string>,
                         bucketName: Option<string>, subpath: Option<string>)
    requires Truthy(bucketName) || Truthy(customerId)
    ensures var r := UploadPlan(ids, dir, listing, customerId, bucketName, subpath);
            var files := RegularFiles(listing);
            && r.Ok? && |r.value| == |files|
            && forall k :: 0 <= k < |files| ==>
                 && r.value[k].localPath == JoinPath(dir, files[k])
                 && r.value[k].bucketFileName == SubpathPrefix(subpath) + files[k]
                 && r.value[k].bucket == (if Truthy(bucketName) then bucketName.value
                                          else BucketNameFromCustomerId(ids, customerId.value))
  {}

  /** When the listing names each entry once, no two writes go to the same name in the bucket. */
  lemma UploadPlanOnce(ids: IdScheme, dir: string, listing: seq<Entry>, customerId: Option<string>,
                       bucketName: Option<string>, subpath: Option<string>)
    requires Truthy(bucketName) || Truthy(customerId)
    requires DistinctNames(listing)
    ensures var r := UploadPlan(ids, dir, listing, customerId, bucketName, subpath);
            r.Ok? && forall i, j :: 0 <= i < j < |r.value| ==> r.value[i].bucketFileName != r.value[j].bucketFileName
  {
    var files := RegularFiles(listing);
    var prefix := SubpathPrefix(subpath);
    RegularFilesDistinct(listing);
    UploadPlanWrites(ids, dir, listing, customerId, bucketName, subpath);
    var r := UploadPlan(ids, dir, listing, customerId, bucketName, subpath);
    forall i, j | 0 <= i < j < |r.value| ensures r.value[i].bucketFileName != r.value[j].bucketFileName {
      assert files[i] != files[j];
      assert (prefix + files[i])[|prefix|..] == files[i];
      assert (prefix + files[j])[|prefix|..] == files[j];
    }
  }

  /** The upload of the source's test: bucket `my-bucket`, subpath `data`, one file
      `testfile.json`, written as `data/testfile.json`. */
  lemma UploadExample(ids: IdScheme, dir: string, customerId: Option<string>, bucket: string, subpath: string, name: string)
    requires bucket == "my-bucket" && subpath == "data" && name == "testfile.json"
    ensures UploadPlan(ids, dir, [Entry(name, true)], customerId, Some(bucket), Some(subpath))
            == Ok([Upload(JoinPath(dir, name), bucket, subpath + "/" + name)])
  {
    DataPrefix(subpath);
    SingleFile(ids, dir, name, customerId, bucket, Some(subpath));
  }

  lemma DataPrefix(s: string)
    requires s == "data"
    ensures SubpathPrefix(Some(s)) == s + "/"
  {
    assert s[0] == 'd' && s[|s| - 1] == 'a';
    UnslashedPrefix(s);
  }

  /** A subpath without a leading or a trailing slash gets one slash appended. */
  lemma UnslashedPrefix(s: string)
    requires s != "" && s[0] != '/' && s[|s| - 1] != '/'
    ensures SubpathPrefix(Some(s)) == s + "/"
  {
    assert LStripChar(s, '/') == s;
    assert RStripChar(s, '/') == s;
  }

  /** A listing of one regular file is written once, to the bucket given. */
  lemma SingleFile(ids: IdScheme, dir: string, name: string, customerId: Option<string>, bucket: string, subpath: Option<string>)
    requires bucket != ""
    ensures UploadPlan(ids, dir, [Entry(name, true)], customerId, Some(bucket), subpath)
            == Ok([Upload(JoinPath(dir, name), bucket, SubpathPrefix(subpath) + name)])
  {
    var listing := [Entry(name, true)];
    var files := RegularFiles(listing);
    assert files == [name] by {
      assert listing[1..] == [];
    }
    var prefix := SubpathPrefix(subpath);
    var w := Upload(JoinPath(dir, name), bucket, prefix + name);
    assert seq(|files|, k requires 0 <= k < |files| => Upload(JoinPath(dir, files[k]), bucket, prefix + files[k])) == [w];
  }

  /** upload_dir_to_gcs: one write per regular file of the listing. */
  method UploadDirToGcs(ids: IdScheme, dir: string, listing: seq<Entry>, customerId: Option<string>,
                        bucketName: Option<string>, subpath: Option<string>)
    returns (r: Result<seq<Upload>>)
    ensures r == UploadPlan(ids, dir, listing, customerId, bucketName, subpath)
  {
    if !Truthy(bucketName) && !Truthy(customerId) {
      return Err(NoBucket);
    }
    var bucket := if Truthy(bucketName) then bucketName.value else BucketNameFromCustomerId(ids, customerId.value);
    var prefix := SubpathPrefix(subpath);
    var files := RegularFiles(listing);
    var writes: seq<Upload> := [];
    var i := 0;
    while i < |files|
      invariant 0 <= i <= |files|
      invariant |writes| == i
      invariant forall k :: 0 <= k < i ==> writes[k] == Upload(JoinPath(dir, files[k]), bucket, prefix + files[k])
    {
      writes := writes + [Upload(JoinPath(dir, files[i]), bucket, prefix + files[i])];
      i := i + 1;
    }
    assert writes == seq(|files|, k requires 0 <= k < |files| => Upload(JoinPath(dir, files[k]), bucket, prefix + files[k]));
    r := Ok(writes);
  }
}
