/**
 * components/TalentCard.tsx: the card of one talent. The photo list falls
 * back to a placeholder so that it is never empty; the carousel index moves
 * forward and backward modulo the number of photos; the tag row shows the
 * first three tags and a "+N" count of the rest.
 */
module TalentCard {
  import opened Wrappers

  datatype Talent = Talent(
    id: string,
    nombre: string,
    genero: string,
    altura: string,
    experiencia: string,
    especialidad: string,
    descripcion: string,
    fotos: seq<string>,
    tags: seq<string>,
    active: bool)

  const Placeholder: string := "/placeholder-avatar.png"

  /** The photos the card shows: the talent's own, or the placeholder alone. */
  function DisplayPhotos(fotos: seq<string>): (photos: seq<string>)
    ensures photos != []
    ensures fotos != [] ==> photos == fotos
    ensures fotos == [] ==> photos == [Placeholder]
  {
    if |fotos| > 0 then fotos else [Placeholder]
  }

  /** The previous/next arrows and the dots are drawn only for two or more photos. */
  predicate ShowsNavigation(photos: seq<string>) {
    |photos| > 1
  }

  /** `(prev + 1) % photos.length`. */
  function NextIndex(i: nat, n: nat): (j: nat)
    requires n > 0
    ensures j < n
    ensures i + 1 < n ==> j == i + 1
    ensures i + 1 == n ==> j == 0
  {
    (i + 1) % n
  }

  /** `(prev - 1 + photos.length) % photos.length`; the dividend is never
      negative here, so JavaScript's `%` and Dafny's agree. */
  function PrevIndex(i: nat, n: nat): (j: nat)
    requires n > 0 && i < n
    ensures j < n
    ensures i > 0 ==> j == i - 1
    ensures i == 0 ==> j == n - 1
  {
    (i - 1 + n) % n
  }

  /** Going forward then back returns to the same photo. */
  lemma PrevAfterNext(i: nat, n: nat)
    requires i < n
    ensures PrevIndex(NextIndex(i, n), n) == i
  {
  }

  /** Going back then forward returns to the same photo. */
  lemma NextAfterPrev(i: nat, n: nat)
    requires i < n
    ensures NextIndex(PrevIndex(i, n), n) == i
  {
  }

  /** The index after `k` presses of the "next" arrow. */
  function Advance(i: nat, k: nat, n: nat): (j: nat)
    requires n > 0
    ensures j < n || (k == 0 && j == i)
    decreases k
  {
    if k == 0 then i else NextIndex(Advance(i, k - 1, n), n)
  }

  /** `k` presses of "next" move `k` places round the ring of photos. */
  lemma {:induction false} AdvanceIsModular(i: nat, k: nat, n: nat)
    requires i < n
    ensures Advance(i, k, n) == (i + k) % n
    decreases k
  {
    if k == 0 {
      ModUnique(i, n, 0, i);
    } else {
      AdvanceIsModular(i, k - 1, n);
      ModSucc(i + k - 1, n);
    }
  }

  /** Stepping one place round a ring of `n` after reducing is reducing after the step. */
  lemma ModSucc(x: nat, n: nat)
    requires n > 0
    ensures ((x % n) + 1) % n == (x + 1) % n
  {
    var q, r := x / n, x % n;
    assert x == q * n + r;
    if r + 1 < n {
      ModUnique(r + 1, n, 0, r + 1);
      ModUnique(x + 1, n, q, r + 1);
    } else {
      ModUnique(r + 1, n, 1, 0);
      assert x + 1 == (q + 1) * n;
      ModUnique(x + 1, n, q + 1, 0);
    }
  }

  lemma ModUnique(x: nat, n: nat, q: int, r: int)
    requires n > 0 && 0 <= r < n && x == q * n + r
    ensures x % n == r
  {
    var q0 := x / n;
    assert x == q0 * n + x % n;
    if q0 > q {
      assert (q0 - q) * n == r - x % n;
      MulAtLeast(q0 - q, n);
    } else if q0 < q {
      assert (q - q0) * n == x % n - r;
      MulAtLeast(q - q0, n);
    }
  }

  lemma MulAtLeast(a: int, n: nat)
    requires a >= 1
    ensures a * n >= n
  {
  }

  /** Pressing "next" once per photo brings the carousel back to where it was. */
  lemma FullCycle(i: nat, n: nat)
    requires i < n
    ensures Advance(i, n, n) == i
  {
    AdvanceIsModular(i, n, n);
    ModUnique(i + n, n, 1, i);
  }

  /** The carousel state of one card: `currentPhotoIndex` over the shown photos. */
  class PhotoCarousel {
    const photos: seq<string>
    var current: nat

    ghost predicate Valid()
      reads this
    {
      photos != [] && current < |photos|
    }

    constructor (fotos: seq<string>)
      ensures Valid()
      ensures photos == DisplayPhotos(fotos) && current == 0
    {
      photos := DisplayPhotos(fotos);
      current := 0;
    }

    /** The photo on screen, `photos[currentPhotoIndex]`. */
    function CurrentPhoto(): (url: string)
      reads this
      requires Valid()
      ensures url in photos
    {
      photos[current]
    }

    /** `nextPhoto`. */
    method NextPhoto()
      requires Valid()
      modifies this
      ensures Valid()
      ensures current == NextIndex(old(current), |photos|)
    {
      current := (current + 1) % |photos|;
    }

    /** `prevPhoto`. */
    method PrevPhoto()
      requires Valid()
      modifies this
      ensures Valid()
      ensures current == PrevIndex(old(current), |photos|)
    {
      current := (current - 1 + |photos|) % |photos|;
    }

    /** A click on the dot of photo `index`; a dot exists for each photo. */
    method SelectPhoto(index: nat)
      requires Valid() && index < |photos|
      modifies this
      ensures Valid() && current == index
    {
      current := index;
    }
  }

  /** The tag row is drawn only when the talent has tags. */
  predicate ShowsTags(tags: seq<string>) {
    |tags| > 0
  }

  /** `tags.slice(0, 3)`: the tags written out on the card. */
  function TagPreview(tags: seq<string>): (shown: seq<string>)
    ensures |shown| <= 3
    ensures |tags| <= 3 ==> shown == tags
    ensures |tags| > 3 ==> |shown| == 3
    ensures shown == tags[..|shown|]
  {
    if |tags| > 3 then tags[..3] else tags
  }

  /** The "+N" label, present only when more than three tags exist. */
  function TagOverflow(tags: seq<string>): (more: Option<nat>)
    ensures more.Some? <==> |tags| > 3
  {
    if |tags| > 3 then Some(|tags| - 3) else None
  }

  /** The tags shown plus the overflow count account for every tag exactly once. */
  lemma TagsAccounted(tags: seq<string>)
    ensures TagPreview(tags) + tags[|TagPreview(tags)|..] == tags
    ensures |TagPreview(tags)| + TagOverflow(tags).GetOr(0) == |tags|
    ensures TagOverflow(tags).Some? ==> TagOverflow(tags).value > 0
  {
    var shown := TagPreview(tags);
    assert shown + tags[|shown|..] == tags[..|shown|] + tags[|shown|..];
  }
}
