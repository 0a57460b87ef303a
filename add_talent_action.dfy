/**
 * The server action of app/admin/talents/add/actions.ts: every new photo is
 * uploaded, one after the other, to the "talent-photos" bucket under a key
 * built from the clock, a random text and the file's extension; the first
 * failed upload ends the action; the public addresses of the uploaded photos
 * are stored with the talent in a new, active row of "talents".
 *
 * The bucket and the table are objects whose contents the action changes.
 * The clock readings, the random texts, the answer of each storage and
 * database call, and the bucket's public-address rule are parameters.
 */
module AddTalentAction {
  import opened Wrappers
  import Text
  import TalentForm
  import Lists

  // ---------------------------------------------------------------------------
  // Object keys

  /** `list.pop()`: the last element, or nothing for an empty list. */
  function Pop<T>(list: seq<T>): (last: Option<T>)
    ensures last.Some? <==> list != []
    ensures list != [] ==> last.value == list[|list| - 1]
  {
    if list == [] then None else Some(list[|list| - 1])
  }

  const DefaultExtension: string := "jpg"

  /** `file.name.split(".").pop() ?? "jpg"`. */
  function Extension(name: string): string {
    Pop(Text.Split(name, '.')).GetOr(DefaultExtension)
  }

  /** `split` always yields at least one piece, so the "jpg" fallback is
      never taken: the extension is the text after the last point, the whole
      name when there is no point, and empty when the name ends in a point. */
  lemma ExtensionNeverDefaults(name: string)
    ensures Pop(Text.Split(name, '.')).Some?
    ensures '.' !in Extension(name)
    ensures '.' !in name ==> Extension(name) == name
  {
    if '.' !in name {
      Text.SplitWithoutSeparator(name, '.');
    }
  }

  /** The extension is what follows the last point. */
  lemma ExtensionAfterLastPoint(stem: string, ext: string)
    requires '.' !in ext
    ensures Extension(stem + "." + ext) == ext
  {
    Text.SplitAtLast(stem, '.', ext);
  }

  /** `talents/${Date.now()}_${random}.${ext}`. */
  function StorageKey(now: nat, random: string, ext: string): string {
    "talents/" + Text.NatToString(now) + "_" + random + "." + ext
  }

  /** A key keeps the extension it was built with, and a file with a point in
      its name is stored under a key with the file's own extension, as long
      as the random part (base-36 digits in the source) has no point. */
  lemma KeyKeepsExtension(now: nat, random: string, name: string)
    requires '.' !in random
    ensures '.' !in Extension(name)
    ensures Extension(StorageKey(now, random, Extension(name))) == Extension(name)
  {
    ExtensionNeverDefaults(name);
    var stem := "talents/" + Text.NatToString(now) + "_" + random;
    NumeralHasNoPoint(now);
    assert '.' !in "talents/" + Text.NatToString(now) + "_";
    ExtensionAfterLastPoint(stem, Extension(name));
  }

  lemma NumeralHasNoPoint(n: nat)
    ensures '.' !in Text.NatToString(n)
  {
    var s := Text.NatToString(n);
    forall i | 0 <= i < |s| ensures s[i] != '.' {
      assert Text.IsDigit(s[i]);
    }
  }

  /** The key of each file, in upload order. */
  function Keys(files: seq<TalentForm.File>, clock: seq<nat>, random: seq<string>): (keys: seq<string>)
    requires |clock| == |files| && |random| == |files|
    ensures |keys| == |files|
    ensures forall i | 0 <= i < |files| ::
      keys[i] == StorageKey(clock[i], random[i], Extension(files[i].name))
  {
    seq(|files|, i requires 0 <= i < |files| => StorageKey(clock[i], random[i], Extension(files[i].name)))
  }

  // ---------------------------------------------------------------------------
  // The bucket

  /** The storage service's answer to an upload under a key already taken
      when `upsert` is false. */
  const DuplicateMessage: string := "The resource already exists"

  datatype StoreResult = Stored(objects: map<string, seq<bv8>>) | Rejected(message: string)

  /** `upload(key, file, { upsert: false })` on a bucket holding `objects`:
      a failure of the service (`fault`) or a taken key rejects the upload and
      leaves the bucket alone; otherwise the object is added under its key
      and nothing else changes. */
  function StoreObject(objects: map<string, seq<bv8>>, key: string, data: seq<bv8>,
                       fault: Option<string>): (r: StoreResult)
    ensures r.Stored? <==> fault.None? && key !in objects
    ensures r.Stored? ==> key in r.objects && r.objects[key] == data
    ensures r.Stored? ==> forall k | k in r.objects :: k in objects || k == key
    ensures r.Stored? ==> forall k | k in objects :: k in r.objects && r.objects[k] == objects[k]
    ensures r.Rejected? ==> r.message == if fault.Some? then fault.value else DuplicateMessage
  {
    if fault.Some? then Rejected(fault.value)
    else if key in objects then Rejected(DuplicateMessage)
    else Stored(objects[key := data])
  }

  class Bucket {
    var objects: map<string, seq<bv8>>

    constructor (objects: map<string, seq<bv8>>)
      ensures this.objects == objects
    {
      this.objects := objects;
    }

    /** The upload call; `error` is the `uploadError` it answers. */
    method Upload(key: string, data: seq<bv8>, fault: Option<string>) returns (error: Option<string>)
      modifies this
      ensures match StoreObject(old(objects), key, data, fault)
        case Stored(o) => objects == o && error == None
        case Rejected(m) => objects == old(objects) && error == Some(m)
    {
      match StoreObject(objects, key, data, fault)
      case Stored(o) =>
        objects := o;
        error := None;
      case Rejected(m) =>
        error := Some(m);
    }
  }

  // ---------------------------------------------------------------------------
  // The upload loop, as a function of how many files it has handled

  /** The bucket, the public addresses gathered and the upload error after
      the first `n` files, each of which was uploaded only if all before it
      succeeded. */
  datatype Progress = Progress(objects: map<string, seq<bv8>>, urls: seq<string>, failure: Option<string>)

  /** `if (publicData && publicData.publicUrl) uploadedUrls.push(...)`. */
  function Gathered(urls: seq<string>, url: string): seq<string> {
    if url != "" then urls + [url] else urls
  }

  /** One turn of the loop: once an upload has failed nothing more happens;
      otherwise the file is uploaded and, when that succeeds, its public
      address gathered. */
  function Step(p: Progress, key: string, data: seq<bv8>, fault: Option<string>, url: string): (q: Progress)
    ensures forall k | k in p.objects :: k in q.objects && q.objects[k] == p.objects[k]
    ensures q.failure.None? ==> p.failure.None? && fault.None? && key !in p.objects
    ensures q.failure.None? ==> key in q.objects && q.objects[key] == data
    ensures forall k | k in q.objects :: k in p.objects || k == key
    ensures q.failure.None? ==> q.urls == Gathered(p.urls, url)
    ensures q.failure.Some? ==> q.objects == p.objects && q.urls == p.urls
    ensures p.failure.Some? ==> q == p
  {
    if p.failure.Some? then p
    else match StoreObject(p.objects, key, data, fault)
      case Stored(o) => Progress(o, Gathered(p.urls, url), None)
      case Rejected(m) => Progress(p.objects, p.urls, Some(m))
  }

  function UploadsUpTo(files: seq<TalentForm.File>, keys: seq<string>, faults: seq<Option<string>>,
                       start: map<string, seq<bv8>>, publicUrl: string -> string, n: nat): Progress
    requires n <= |files| && |keys| == |files| && |faults| == |files|
    decreases n
  {
    if n == 0 then Progress(start, [], None)
    else Step(UploadsUpTo(files, keys, faults, start, publicUrl, n - 1),
              keys[n - 1], files[n - 1].data, faults[n - 1], publicUrl(keys[n - 1]))
  }

  /** After the first failure nothing more happens. */
  lemma {:induction false} FailureStops(files: seq<TalentForm.File>, keys: seq<string>,
                                        faults: seq<Option<string>>, start: map<string, seq<bv8>>,
                                        publicUrl: string -> string, m: nat, n: nat)
    requires m <= n <= |files| && |keys| == |files| && |faults| == |files|
    requires UploadsUpTo(files, keys, faults, start, publicUrl, m).failure.Some?
    ensures UploadsUpTo(files, keys, faults, start, publicUrl, n)
         == UploadsUpTo(files, keys, faults, start, publicUrl, m)
    decreases n
  {
    if m < n {
      FailureStops(files, keys, faults, start, publicUrl, m, n - 1);
    }
  }

  /** When file `i` is the first whose upload is refused, the run ends with
      that error, and every file before it is still in the bucket under its
      own key: nothing is rolled back. */
  lemma FailureKeepsEarlierUploads(files: seq<TalentForm.File>, keys: seq<string>,
                                   faults: seq<Option<string>>, start: map<string, seq<bv8>>,
                                   publicUrl: string -> string, i: nat)
    requires i < |files| && |keys| == |files| && |faults| == |files|
    requires UploadsUpTo(files, keys, faults, start, publicUrl, i).failure.None?
    requires UploadsUpTo(files, keys, faults, start, publicUrl, i + 1).failure.Some?
    ensures UploadsUpTo(files, keys, faults, start, publicUrl, |files|)
         == UploadsUpTo(files, keys, faults, start, publicUrl, i + 1)
    ensures var p := UploadsUpTo(files, keys, faults, start, publicUrl, |files|);
      forall j | 0 <= j < i :: keys[j] in p.objects && p.objects[keys[j]] == files[j].data
  {
    FailureStops(files, keys, faults, start, publicUrl, i + 1, |files|);
    var before := UploadsUpTo(files, keys, faults, start, publicUrl, i);
    var after := UploadsUpTo(files, keys, faults, start, publicUrl, i + 1);
    assert after.objects == before.objects by {
      assert after == Step(before, keys[i], files[i].data, faults[i], publicUrl(keys[i]));
    }
    UploadsStoreEveryPhoto(files, keys, faults, start, publicUrl, i);
  }

  /** Uploads only add objects: whatever the bucket held before is still
      there, unchanged, even when an upload fails. */
  lemma {:induction false} UploadsKeepObjects(files: seq<TalentForm.File>, keys: seq<string>,
                                              faults: seq<Option<string>>, start: map<string, seq<bv8>>,
                                              publicUrl: string -> string, n: nat)
    requires n <= |files| && |keys| == |files| && |faults| == |files|
    ensures var p := UploadsUpTo(files, keys, faults, start, publicUrl, n);
      forall k | k in start :: k in p.objects && p.objects[k] == start[k]
    decreases n
  {
    if n > 0 {
      UploadsKeepObjects(files, keys, faults, start, publicUrl, n - 1);
    }
  }

  /** When every upload succeeds, each photo is in the bucket under its own
      key. */
  lemma {:induction false} UploadsStoreEveryPhoto(files: seq<TalentForm.File>, keys: seq<string>,
                                                  faults: seq<Option<string>>, start: map<string, seq<bv8>>,
                                                  publicUrl: string -> string, n: nat)
    requires n <= |files| && |keys| == |files| && |faults| == |files|
    requires UploadsUpTo(files, keys, faults, start, publicUrl, n).failure.None?
    ensures var p := UploadsUpTo(files, keys, faults, start, publicUrl, n);
      forall j | 0 <= j < n :: keys[j] in p.objects && p.objects[keys[j]] == files[j].data
    decreases n
  {
    if n > 0 {
      var p := UploadsUpTo(files, keys, faults, start, publicUrl, n - 1);
      var q := UploadsUpTo(files, keys, faults, start, publicUrl, n);
      assert q == Step(p, keys[n - 1], files[n - 1].data, faults[n - 1], publicUrl(keys[n - 1]));
      UploadsStoreEveryPhoto(files, keys, faults, start, publicUrl, n - 1);
      forall j | 0 <= j < n - 1 ensures keys[j] in q.objects && q.objects[keys[j]] == files[j].data {
        assert keys[j] in p.objects && p.objects[keys[j]] == files[j].data;
      }
    }
  }

  /** The bucket gains objects only under the keys of the files handled. */
  lemma {:induction false} UploadsOnlyUnderKeys(files: seq<TalentForm.File>, keys: seq<string>,
                                                faults: seq<Option<string>>, start: map<string, seq<bv8>>,
                                                publicUrl: string -> string, n: nat)
    requires n <= |files| && |keys| == |files| && |faults| == |files|
    ensures var p := UploadsUpTo(files, keys, faults, start, publicUrl, n);
      forall k | k in p.objects :: k in start || k in keys[..n]
    decreases n
  {
    if n > 0 {
      var p := UploadsUpTo(files, keys, faults, start, publicUrl, n - 1);
      var q := UploadsUpTo(files, keys, faults, start, publicUrl, n);
      assert q == Step(p, keys[n - 1], files[n - 1].data, faults[n - 1], publicUrl(keys[n - 1]));
      UploadsOnlyUnderKeys(files, keys, faults, start, publicUrl, n - 1);
      assert keys[..n] == keys[..n - 1] + [keys[n - 1]];
    }
  }

  /** The stored addresses are the public addresses of the uploaded keys, in
      upload order, minus the empty ones; so there are never more addresses
      than photos, and exactly one per photo when none is empty. */
  lemma {:induction false} UrlsFollowUploads(files: seq<TalentForm.File>, keys: seq<string>,
                                             faults: seq<Option<string>>, start: map<string, seq<bv8>>,
                                             publicUrl: string -> string, n: nat)
    requires n <= |files| && |keys| == |files| && |faults| == |files|
    ensures var p := UploadsUpTo(files, keys, faults, start, publicUrl, n);
      && |p.urls| <= n
      && (forall i | 0 <= i < |p.urls| :: p.urls[i] != "")
      && (p.failure.None? && (forall j | 0 <= j < n :: publicUrl(keys[j]) != "") ==>
            p.urls == PublicUrls(keys, publicUrl, n))
    decreases n
  {
    if n > 0 {
      UrlsFollowUploads(files, keys, faults, start, publicUrl, n - 1);
    }
  }

  /** When no upload fails, the stored addresses are the public addresses of
      the keys in upload order with the empty ones dropped. */
  lemma {:induction false} UrlsSkipEmpty(files: seq<TalentForm.File>, keys: seq<string>,
                                         faults: seq<Option<string>>, start: map<string, seq<bv8>>,
                                         publicUrl: string -> string, n: nat)
    requires n <= |files| && |keys| == |files| && |faults| == |files|
    requires UploadsUpTo(files, keys, faults, start, publicUrl, n).failure.None?
    ensures UploadsUpTo(files, keys, faults, start, publicUrl, n).urls
         == Lists.Filter((u: string) => u != "", PublicUrls(keys, publicUrl, n))
    decreases n
  {
    if n > 0 {
      var p := UploadsUpTo(files, keys, faults, start, publicUrl, n - 1);
      var url := publicUrl(keys[n - 1]);
      assert UploadsUpTo(files, keys, faults, start, publicUrl, n)
          == Step(p, keys[n - 1], files[n - 1].data, faults[n - 1], url);
      UrlsSkipEmpty(files, keys, faults, start, publicUrl, n - 1);
      Lists.FilterSnoc((u: string) => u != "", PublicUrls(keys, publicUrl, n - 1), url);
    }
  }

  /** The public addresses of the first `n` keys. */
  function PublicUrls(keys: seq<string>, publicUrl: string -> string, n: nat): seq<string>
    requires n <= |keys|
  {
    if n == 0 then [] else PublicUrls(keys, publicUrl, n - 1) + [publicUrl(keys[n - 1])]
  }

  // ---------------------------------------------------------------------------
  // The table

  /** A row of "talents" as the action inserts it; the form's rating is not
      part of it. */
  datatype TalentRecord = TalentRecord(
    nombre: string,
    genero: string,
    altura: string,
    experiencia: string,
    especialidad: string,
    descripcion: string,
    fotos: seq<string>,
    tags: seq<string>,
    active: bool)

  class TalentTable {
    var rows: seq<TalentRecord>

    constructor (rows: seq<TalentRecord>)
      ensures this.rows == rows
    {
      this.rows := rows;
    }

    /** `insert([row])`; `error` is the error it answers with. */
    method Insert(row: TalentRecord, fault: Option<string>) returns (error: Option<string>)
      modifies this
      ensures fault.Some? ==> rows == old(rows) && error == fault
      ensures fault.None? ==> rows == old(rows) + [row] && error == None
    {
      error := fault;
      if fault.None? {
        rows := rows + [row];
      }
    }
  }

  /** The row built from the submitted fields and the gathered addresses. */
  function NewRow(data: TalentForm.Submission, urls: seq<string>): TalentRecord {
    TalentRecord(data.nombre, data.genero, data.altura, data.experiencia, data.especialidad,
                 data.descripcion, urls, data.tags, true)
  }

  // ---------------------------------------------------------------------------
  // addTalent

  /** A failed upload ends the loop with that upload's error. */
  lemma TurnFails(files: seq<TalentForm.File>, keys: seq<string>, faults: seq<Option<string>>,
                  start: map<string, seq<bv8>>, publicUrl: string -> string, i: nat,
                  objects: map<string, seq<bv8>>, urls: seq<string>, message: string)
    requires i < |files| && |keys| == |files| && |faults| == |files|
    requires UploadsUpTo(files, keys, faults, start, publicUrl, i) == Progress(objects, urls, None)
    requires StoreObject(objects, keys[i], files[i].data, faults[i]) == Rejected(message)
    ensures UploadsUpTo(files, keys, faults, start, publicUrl, |files|) == Progress(objects, urls, Some(message))
  {
    FailureStops(files, keys, faults, start, publicUrl, i + 1, |files|);
  }

  /** A successful upload moves the loop on by one file. */
  lemma TurnStores(files: seq<TalentForm.File>, keys: seq<string>, faults: seq<Option<string>>,
                   start: map<string, seq<bv8>>, publicUrl: string -> string, i: nat,
                   objects: map<string, seq<bv8>>, urls: seq<string>, stored: map<string, seq<bv8>>)
    requires i < |files| && |keys| == |files| && |faults| == |files|
    requires UploadsUpTo(files, keys, faults, start, publicUrl, i) == Progress(objects, urls, None)
    requires StoreObject(objects, keys[i], files[i].data, faults[i]) == Stored(stored)
    ensures UploadsUpTo(files, keys, faults, start, publicUrl, i + 1)
         == Progress(stored, Gathered(urls, publicUrl(keys[i])), None)
  {
  }

  /** The upload loop of `addTalent`: the files are uploaded in order, each
      under the key built from its clock reading, random text and extension,
      until one upload fails; `failure` is that upload's error. */
  method UploadPhotos(files: seq<TalentForm.File>, clock: seq<nat>, random: seq<string>,
                      uploadFaults: seq<Option<string>>, publicUrl: string -> string, bucket: Bucket)
    returns (uploadedUrls: seq<string>, failure: Option<string>)
    requires |clock| == |files| && |random| == |files| && |uploadFaults| == |files|
    modifies bucket
    ensures Progress(bucket.objects, uploadedUrls, failure)
         == UploadsUpTo(files, Keys(files, clock, random), uploadFaults, old(bucket.objects), publicUrl, |files|)
  {
    ghost var keys := Keys(files, clock, random);
    ghost var start := bucket.objects;
    uploadedUrls := [];
    var i := 0;
    while i < |files|
      invariant 0 <= i <= |files|
      invariant UploadsUpTo(files, keys, uploadFaults, start, publicUrl, i)
             == Progress(bucket.objects, uploadedUrls, None)
    {
      var file := files[i];
      var ext := Extension(file.name);
      var key := StorageKey(clock[i], random[i], ext);
      assert key == keys[i];
      ghost var objects := bucket.objects;
      var uploadError := bucket.Upload(key, file.data, uploadFaults[i]);
      if uploadError.Some? {
        TurnFails(files, keys, uploadFaults, start, publicUrl, i, objects, uploadedUrls, uploadError.value);
        return uploadedUrls, uploadError;
      }
      TurnStores(files, keys, uploadFaults, start, publicUrl, i, objects, uploadedUrls, bucket.objects);
      uploadedUrls := Gathered(uploadedUrls, publicUrl(key));
      i := i + 1;
    }
    failure := None;
  }

  /** `addTalent(formData)`. The `i`th file is uploaded at clock reading
      `clock[i]` with random text `random[i]`, and the service answers with
      `uploadFaults[i]`; `insertFault` is the database's answer. An upload
      error ends the action with that error, keeping the photos already
      uploaded and inserting nothing; otherwise the row is inserted with the
      addresses gathered, and the action reports the insert's outcome. */
  method AddTalent(data: TalentForm.Submission, bucket: Bucket, table: TalentTable,
                   clock: seq<nat>, random: seq<string>, uploadFaults: seq<Option<string>>,
                   publicUrl: string -> string, insertFault: Option<string>)
    returns (result: TalentForm.SubmitResult)
    requires |clock| == |data.fotosFiles| && |random| == |data.fotosFiles|
    requires |uploadFaults| == |data.fotosFiles|
    modifies bucket, table
    ensures var files := data.fotosFiles;
      var p := UploadsUpTo(files, Keys(files, clock, random), uploadFaults,
                           old(bucket.objects), publicUrl, |files|);
      && bucket.objects == p.objects
      && if p.failure.Some? then
           result == TalentForm.SubmitResult(false, p.failure) && table.rows == old(table.rows)
         else if insertFault.Some? then
           result == TalentForm.SubmitResult(false, insertFault) && table.rows == old(table.rows)
         else
           result == TalentForm.SubmitResult(true, None)
           && table.rows == old(table.rows) + [NewRow(data, p.urls)]
  {
    var uploadedUrls, uploadError := UploadPhotos(data.fotosFiles, clock, random, uploadFaults, publicUrl, bucket);
    if uploadError.Some? {
      return TalentForm.SubmitResult(false, uploadError);
    }
    var error := table.Insert(NewRow(data, uploadedUrls), insertFault);
    if error.Some? {
      return TalentForm.SubmitResult(false, error);
    }
    return TalentForm.SubmitResult(true, None);
  }
}
