/**
 * Classification: the eight box kinds, the name registry and its lookup,
 * and getImg, which routes an icon request to the bundled resource, to the
 * download cache, or (for UNKNOWN) to a size-keyed cache of four-quadrant
 * montages.
 */
module Classifications {
  import opened Wrappers
  import opened JavaLang
  import opened TaskPool
  import opened ImageUtils

  /** The size whose icons are bundled with the program. */
  const DEFAULT_IMAGE_SIZE: int := 200

  datatype ClassId =
    | Irrelevant | Asset | AnalogInterface | IrrelevantThreat
    | RelevantThreat | Catalyst | RelevantOne | Unknown

  /** The display name, which is also what toString gives. */
  function Name(c: ClassId): string
  {
    match c
    case Irrelevant => "Irrelevant"
    case Asset => "Asset"
    case AnalogInterface => "Analog Interface"
    case IrrelevantThreat => "Irrelevant Threat"
    case RelevantThreat => "Relevant Threat"
    case Catalyst => "Catalyst"
    case RelevantOne => "Relevant-One"
    case Unknown => "Unknown"
  }

  /** A scaled icon on the wiki's image host: server number, then the image's path without its extension. */
  function WikiaIcon(server: string, path: string): string
  {
    "https://vignette" + server + ".wikia.nocookie.net/pediaofinterest/images/" + path + ".svg/revision/latest/scale-to-width-down/"
  }

  /** The base URL of the icon; the pixel size is appended to it. */
  function ImgUrl(c: ClassId): string
  {
    match c
    case Irrelevant => WikiaIcon("3", "a/a1/S03-WhiteSquare")
    case Asset => WikiaIcon("1", "a/a4/S03-YellowSquare")
    case AnalogInterface => WikiaIcon("1", "2/2e/S03-BlackSquareYellowCorners")
    case IrrelevantThreat => WikiaIcon("3", "d/d2/S03-WhiteSquareRedCorners")
    case RelevantThreat => WikiaIcon("4", "4/4c/S03-RedSquare")
    case Catalyst => WikiaIcon("2", "2/2e/S03-BlueSquare")
    case RelevantOne => WikiaIcon("3", "a/a3/S05-BlueSquareWhiteCorners")
    case Unknown => "https://cdn.discordapp.com/attachments/197699632841752576/338403812576329728/classes.png"
  }

  /** An enum constant as getImg sees it: which classification it is, and its `img` field. */
  datatype Constant = Constant(id: ClassId, img: string)

  /** The enum constant declared for a classification. */
  function ConstantOf(c: ClassId): Constant
  {
    Constant(c, ImgUrl(c))
  }

  /** getUnlocName: the display name lower-cased, with every space turned into an underscore. */
  function UnlocName(c: ClassId): (r: string)
    ensures |r| == |Name(c)|
    ensures forall i :: 0 <= i < |r| ==>
              r[i] == (if Name(c)[i] == ' ' then '_' else LowerChar(Name(c)[i]))
  {
    ReplaceChar(ToLower(Name(c)), ' ', '_')
  }

  lemma UnlocNameExample()
    ensures UnlocName(AnalogInterface) == "analog_interface"
    ensures UnlocName(RelevantOne) == "relevant-one"
  {
  }

  /** A registry key holds no space and no upper-case letter, so lower-casing it changes nothing. */
  lemma {:induction false} UnlocNameIsLowerCase(c: ClassId)
    ensures ' ' !in UnlocName(c)
    ensures ToLower(UnlocName(c)) == UnlocName(c)
  {
    var u := UnlocName(c);
    forall i | 0 <= i < |u| ensures u[i] != ' ' && LowerChar(u[i]) == u[i] {
      var ch := Name(c)[i];
      assert u[i] == (if ch == ' ' then '_' else LowerChar(ch));
    }
  }

  /** CLASS_MAP as the static initialiser leaves it. */
  function RegisteredMap(): map<string, ClassId>
  {
    map[
      UnlocName(Irrelevant) := Irrelevant, UnlocName(Asset) := Asset,
      UnlocName(AnalogInterface) := AnalogInterface, UnlocName(IrrelevantThreat) := IrrelevantThreat,
      UnlocName(RelevantThreat) := RelevantThreat, UnlocName(Catalyst) := Catalyst,
      UnlocName(RelevantOne) := RelevantOne, UnlocName(Unknown) := Unknown]
  }

  /**
   * Every classification is registered under its own key, and nothing else
   * is registered: no registration overwrites another, as the eight keys
   * even differ in length.
   */
  lemma RegisteredMapMeaning(c: ClassId)
    ensures UnlocName(c) in RegisteredMap() && RegisteredMap()[UnlocName(c)] == c
    ensures forall k :: k in RegisteredMap() ==> exists c' :: k == UnlocName(c')
  {
  }

  /** CLASS_MAP, filled by registerClass. */
  class Registry {
    var classMap: map<string, ClassId>

    /** The static initialiser: registers the eight classifications in declaration order. */
    constructor ()
      ensures classMap == RegisteredMap()
    {
      classMap := map[];
      new;
      RegisterClass(Irrelevant);
      RegisterClass(Asset);
      RegisterClass(AnalogInterface);
      RegisterClass(IrrelevantThreat);
      RegisterClass(RelevantThreat);
      RegisterClass(Catalyst);
      RegisterClass(RelevantOne);
      RegisterClass(Unknown);
    }

    /** registerClass: put the classification under its unlocalised name. */
    method RegisterClass(c: ClassId)
      modifies this
      ensures classMap == old(classMap)[UnlocName(c) := c]
    {
      classMap := classMap[UnlocName(c) := c];
    }

    /** getClassification(name, strict), the search loop over the map's entries in `order`. */
    method GetClassification(name: string, strict: bool, order: seq<string>) returns (r: Option<ClassId>)
      requires IsIterationOrder(order, classMap)
      ensures r == Classify(classMap, order, name, strict)
    {
      var lower := ToLower(name);
      if lower in classMap {
        return Some(classMap[lower]);
      }
      var i := 0;
      while i < |order|
        invariant 0 <= i <= |order|
        invariant FirstContaining(classMap, order[i..], lower) == FirstContaining(classMap, order, lower)
      {
        if Contains(lower, order[i]) {
          return Some(classMap[order[i]]);
        }
        assert order[i..][1..] == order[i + 1..];
        i := i + 1;
      }
      r := if strict then None else Some(Irrelevant);
    }

    /** getClassification(name): the non-strict overload. */
    method GetClassificationLenient(name: string, order: seq<string>) returns (r: ClassId)
      requires IsIterationOrder(order, classMap)
      ensures Classify(classMap, order, name, false) == Some(r)
    {
      var o := GetClassification(name, false, order);
      ClassifyLenientNeverNull(classMap, order, name);
      r := o.value;
    }
  }

  /** `order` lists every key of the map exactly once: one possible HashMap iteration order. */
  ghost predicate IsIterationOrder(order: seq<string>, m: map<string, ClassId>)
  {
    && (forall i :: 0 <= i < |order| ==> order[i] in m)
    && (forall k :: k in m ==> k in order)
    && (forall i, j :: 0 <= i < j < |order| ==> order[i] != order[j])
  }

  /** The first key in `order` that occurs inside `lower`, mapped to its classification. */
  function FirstContaining(m: map<string, ClassId>, order: seq<string>, lower: string): Option<ClassId>
    requires forall i :: 0 <= i < |order| ==> order[i] in m
  {
    if |order| == 0 then None
    else if Contains(lower, order[0]) then Some(m[order[0]])
    else FirstContaining(m, order[1..], lower)
  }

  /** getClassification(name, strict) against map `m` iterated in `order`. */
  function Classify(m: map<string, ClassId>, order: seq<string>, name: string, strict: bool): Option<ClassId>
    requires forall i :: 0 <= i < |order| ==> order[i] in m
  {
    var lower := ToLower(name);
    if lower in m then Some(m[lower])
    else match FirstContaining(m, order, lower)
      case Some(c) => Some(c)
      case None => if strict then None else Some(Irrelevant)
  }

  /** The position of the first key in `order` found inside `lower`, or -1. */
  function FirstMatch(order: seq<string>, lower: string): (k: int)
    ensures -1 <= k < |order|
    ensures k >= 0 ==> Contains(lower, order[k])
    ensures forall j :: 0 <= j < |order| && (k < 0 || j < k) ==> !Contains(lower, order[j])
  {
    if |order| == 0 then -1
    else if Contains(lower, order[0]) then 0
    else
      var k := FirstMatch(order[1..], lower);
      if k < 0 then -1 else k + 1
  }

  /** The search loop's result is the classification of the first key, in order, found inside `lower`, or nothing. */
  lemma {:induction false} FirstContainingMeaning(m: map<string, ClassId>, order: seq<string>, lower: string)
    requires forall i :: 0 <= i < |order| ==> order[i] in m
    ensures var k := FirstMatch(order, lower);
            FirstContaining(m, order, lower) == if k < 0 then None else Some(m[order[k]])
  {
    if |order| > 0 && !Contains(lower, order[0]) {
      FirstContainingMeaning(m, order[1..], lower);
    }
  }

  /**
   * getClassification: an exact key wins; otherwise the first key, in the map's
   * iteration order, found inside the lower-cased name; with no such key,
   * null when strict and IRRELEVANT otherwise.
   */
  lemma ClassifyMeaning(m: map<string, ClassId>, order: seq<string>, name: string, strict: bool)
    requires IsIterationOrder(order, m)
    ensures ToLower(name) in m ==> Classify(m, order, name, strict) == Some(m[ToLower(name)])
    ensures ToLower(name) !in m && (exists k :: k in m && Contains(ToLower(name), k)) ==>
              exists j :: && 0 <= j < |order| && Contains(ToLower(name), order[j])
                          && Classify(m, order, name, strict) == Some(m[order[j]])
                          && forall i :: 0 <= i < j ==> !Contains(ToLower(name), order[i])
    ensures (forall k :: k in m ==> !Contains(ToLower(name), k)) ==>
              Classify(m, order, name, strict) == if strict then None else Some(Irrelevant)
  {
    var lower := ToLower(name);
    FirstContainingMeaning(m, order, lower);
    var j := FirstMatch(order, lower);
    if exists k :: k in m && Contains(lower, k) {
      var k :| k in m && Contains(lower, k);
      assert k in order;
      assert j >= 0;
    } else if lower in m {
      assert lower <= lower;
      assert Contains(lower, lower);
    }
  }

  /** The one-argument overload never yields null. */
  lemma ClassifyLenientNeverNull(m: map<string, ClassId>, order: seq<string>, name: string)
    requires forall i :: 0 <= i < |order| ==> order[i] in m
    ensures Classify(m, order, name, false).Some?
  {
  }

  /** Looking up a classification's own registry key gives back that classification, even when strict. */
  lemma ClassifyUnlocRoundTrip(c: ClassId, order: seq<string>, strict: bool)
    requires IsIterationOrder(order, RegisteredMap())
    ensures Classify(RegisteredMap(), order, UnlocName(c), strict) == Some(c)
  {
    RegisteredMapMeaning(c);
    UnlocNameIsLowerCase(c);
  }

  /** The part of the montage drawn from one classification: the rectangle [x1, x2) × [y1, y2), taken from the same place in the source. */
  datatype Quadrant = Quadrant(source: ClassId, x1: int, y1: int, x2: int, y2: int)

  predicate Covers(q: Quadrant, px: int, py: int)
  {
    q.x1 <= px < q.x2 && q.y1 <= py < q.y2
  }

  /** The four drawImagePart calls of the UNKNOWN montage of side `size`. */
  function MontageLayout(size: int): (layout: seq<Quadrant>)
    ensures |layout| == 4
    ensures [layout[0].source, layout[1].source, layout[2].source, layout[3].source]
            == [Irrelevant, RelevantThreat, Catalyst, Asset]
    ensures forall q | q in layout ::
              && ((q.x1 == 0 && q.x2 == Half(size)) || (q.x1 == Half(size) && q.x2 == size))
              && ((q.y1 == 0 && q.y2 == Half(size)) || (q.y1 == Half(size) && q.y2 == size))
  {
    var half := Half(size);
    [ Quadrant(Irrelevant, 0, 0, half, half),
      Quadrant(RelevantThreat, half, 0, size, half),
      Quadrant(Catalyst, 0, half, half, size),
      Quadrant(Asset, half, half, size, size) ]
  }

  /** The classification the montage pixel (px, py) is drawn from. */
  function SourceAt(size: int, px: int, py: int): ClassId
  {
    var half := Half(size);
    if py < half then (if px < half then Irrelevant else RelevantThreat)
    else (if px < half then Catalyst else Asset)
  }

  /** For a non-negative size, every quadrant lies within the square. */
  lemma LayoutInsideSquare(size: int)
    requires size >= 0
    ensures forall k :: 0 <= k < 4 ==>
              0 <= MontageLayout(size)[k].x1 <= MontageLayout(size)[k].x2 <= size &&
              0 <= MontageLayout(size)[k].y1 <= MontageLayout(size)[k].y2 <= size
  {
  }

  /** The quadrants tile the size × size square: each pixel lies in exactly one, the one drawn from SourceAt. */
  lemma LayoutTiles(size: int, px: int, py: int)
    requires 0 <= px < size && 0 <= py < size
    ensures exists k :: && 0 <= k < 4 && Covers(MontageLayout(size)[k], px, py)
                        && MontageLayout(size)[k].source == SourceAt(size, px, py)
                        && forall j :: 0 <= j < 4 && j != k ==> !Covers(MontageLayout(size)[j], px, py)
  {
    var half := Half(size);
    var k := (if px < half then 0 else 1) + (if py < half then 0 else 2);
    assert Covers(MontageLayout(size)[k], px, py);
  }

  /** In a 100-pixel montage the four corners come from IRRELEVANT, RELEVANT_THREAT, CATALYST and ASSET. */
  lemma MontageCorners()
    ensures SourceAt(100, 5, 5) == Irrelevant
    ensures SourceAt(100, 95, 5) == RelevantThreat
    ensures SourceAt(100, 5, 95) == Catalyst
    ensures SourceAt(100, 95, 95) == Asset
  {
  }

  /** The montage size a job assembles, if it is a montage. */
  function MontageSizeOf(job: Job): (r: Option<int>)
    ensures r.Some? <==> job.Montage?
    ensures job.Montage? ==> r.value == job.size
  {
    if job.Montage? then Some(job.size) else None
  }

  /** The bundled resource getImg reads at the default size. */
  function ResourcePath(c: ClassId): string
  {
    "/boxes/" + UnlocName(c) + ".png"
  }

  /** The URL getImg downloads for a non-UNKNOWN classification at a non-default size. */
  function SizedUrl(k: Constant, size: int): string
  {
    k.img + IntToString(size)
  }

  /** Different sizes of one icon are different URLs, so each size has its own download cache entry. */
  lemma SizedUrlInjective(k: Constant, size1: int, size2: int)
    requires SizedUrl(k, size1) == SizedUrl(k, size2)
    ensures size1 == size2
  {
    assert IntToString(size1) == SizedUrl(k, size1)[|k.img|..];
    assert IntToString(size2) == SizedUrl(k, size2)[|k.img|..];
    IntToStringInjective(size1, size2);
  }

  /**
   * The log `after` continues `before` with at most `n` more jobs, each of
   * them one of `allowed`.
   */
  ghost predicate SubmitsOnly(before: seq<Job>, after: seq<Job>, allowed: set<Job>, n: nat)
  {
    && |before| <= |after| <= |before| + n
    && after[..|before|] == before
    && forall i :: |before| <= i < |after| ==> after[i] in allowed
  }

  /** Two logged stretches in a row submit from the union of what each allows. */
  lemma SubmitsOnlyThen(a: seq<Job>, b: seq<Job>, c: seq<Job>, s1: set<Job>, s2: set<Job>, n1: nat, n2: nat)
    requires SubmitsOnly(a, b, s1, n1) && SubmitsOnly(b, c, s2, n2)
    ensures SubmitsOnly(a, c, s1 + s2, n1 + n2)
  {
    assert c[..|a|] == c[..|b|][..|a|];
    forall i | |a| <= i < |c|
      ensures c[i] in s1 + s2
    {
      if i < |b| {
        assert c[i] == c[..|b|][i];
      }
    }
  }

  /** getImg and UNKNOWN_IMAGE_CACHE, sharing the download cache and its executor. */
  class Icons {
    const images: ImageCache
    var unknownCache: map<int, FutureId>

    /** Both caches agree with the submission log; the default size is never cached. */
    ghost predicate Valid()
      reads this, images, images.pool
    {
      && images.Valid()
      && Memoised(unknownCache, images.pool.jobs, MontageSizeOf)
      && DEFAULT_IMAGE_SIZE !in unknownCache
    }

    /** Class loading: UNKNOWN_IMAGE_CACHE starts empty, before any montage was submitted. */
    constructor (images: ImageCache)
      requires images.Valid()
      requires forall i :: 0 <= i < |images.pool.jobs| ==> !images.pool.jobs[i].Montage?
      ensures this.images == images && unknownCache == map[]
      ensures Valid()
    {
      this.images := images;
      unknownCache := map[];
      UnkeyedLogIsMemoised(images.pool.jobs, MontageSizeOf);
    }

    /**
     * getImg(size): the bundled icon is read afresh each time at the default size;
     * UNKNOWN's montage is memoised per size; every other icon goes through readImg.
     */
    method GetImg(k: Constant, size: int) returns (f: FutureId)
      requires Valid()
      modifies this, images, images.pool
      ensures Valid()
      ensures size == DEFAULT_IMAGE_SIZE ==>
                && f == |old(images.pool.jobs)|
                && images.pool.jobs == old(images.pool.jobs) + [ResourceRead(ResourcePath(k.id))]
                && unknownCache == old(unknownCache) && images.entries == old(images.entries)
      ensures size != DEFAULT_IMAGE_SIZE && k.id == Unknown ==>
                && Memo(old(unknownCache), old(images.pool.jobs), size, Montage(size))
                   == MemoStep(f, unknownCache, images.pool.jobs)
                && images.entries == old(images.entries)
      ensures size != DEFAULT_IMAGE_SIZE && k.id != Unknown ==>
                && Memo(old(images.entries), old(images.pool.jobs), SizedUrl(k, size), HttpGet(SizedUrl(k, size)))
                   == MemoStep(f, images.entries, images.pool.jobs)
                && unknownCache == old(unknownCache)
      ensures size != DEFAULT_IMAGE_SIZE && k.id != Unknown ==>
                SizedUrl(k, size) in images.entries && images.entries[SizedUrl(k, size)] == f
      ensures Grows(old(images.entries), images.entries)
    {
      if size == DEFAULT_IMAGE_SIZE {
        f := ReadBundled(k.id);
      } else if k.id == Unknown {
        f := UnknownMontage(size);
      } else {
        f := Download(SizedUrl(k, size));
      }
    }

    /** The default-size branch: submit a read of the bundled icon, caching nothing. */
    method ReadBundled(c: ClassId) returns (f: FutureId)
      requires Valid()
      modifies images.pool
      ensures Valid()
      ensures f == |old(images.pool.jobs)|
      ensures images.pool.jobs == old(images.pool.jobs) + [ResourceRead(ResourcePath(c))]
      ensures unknownCache == old(unknownCache) && images.entries == old(images.entries)
    {
      var job := ResourceRead(ResourcePath(c));
      SubmitOtherKeepsMemoised(images.entries, images.pool.jobs, UrlOf, job);
      SubmitOtherKeepsMemoised(unknownCache, images.pool.jobs, MontageSizeOf, job);
      f := images.pool.Submit(job);
    }

    /** The UNKNOWN branch: the montage future cached under its size. */
    method UnknownMontage(size: int) returns (f: FutureId)
      requires Valid() && size != DEFAULT_IMAGE_SIZE
      modifies this, images.pool
      ensures Valid()
      ensures Memo(old(unknownCache), old(images.pool.jobs), size, Montage(size))
              == MemoStep(f, unknownCache, images.pool.jobs)
      ensures images.entries == old(images.entries)
    {
      MemoKeepsMemoised(unknownCache, images.pool.jobs, MontageSizeOf, size, Montage(size));
      if size in unknownCache {
        f := unknownCache[size];
      } else {
        SubmitOtherKeepsMemoised(images.entries, images.pool.jobs, UrlOf, Montage(size));
        f := images.pool.Submit(Montage(size));
        unknownCache := unknownCache[size := f];
      }
    }

    /** The remaining branch: readImg(img + size). */
    method Download(url: string) returns (f: FutureId)
      requires Valid()
      modifies images, images.pool
      ensures Valid()
      ensures Memo(old(images.entries), old(images.pool.jobs), url, HttpGet(url))
              == MemoStep(f, images.entries, images.pool.jobs)
      ensures url in images.entries && images.entries[url] == f
      ensures Grows(old(images.entries), images.entries)
      ensures unknownCache == old(unknownCache)
    {
      SubmitOtherKeepsMemoised(unknownCache, images.pool.jobs, MontageSizeOf, HttpGet(url));
      f := images.ReadImg(url);
    }

    /** getImg(): the bundled-size icon. */
    method GetDefaultImg(k: Constant) returns (f: FutureId)
      requires Valid()
      modifies this, images, images.pool
      ensures Valid()
      ensures f == |old(images.pool.jobs)|
      ensures images.pool.jobs == old(images.pool.jobs) + [ResourceRead(ResourcePath(k.id))]
      ensures unknownCache == old(unknownCache) && images.entries == old(images.entries)
    {
      f := GetImg(k, DEFAULT_IMAGE_SIZE);
    }

    /**
     * The montage job's first step: request the four constituents at the
     * montage's size before waiting on any of them. They all go through readImg.
     */
    method MontageRequests(size: int) returns (ir: FutureId, tr: FutureId, ct: FutureId, as_: FutureId)
      requires Valid() && size != DEFAULT_IMAGE_SIZE
      modifies this, images, images.pool
      ensures Valid()
      ensures unknownCache == old(unknownCache)
      ensures SizedUrl(ConstantOf(Irrelevant), size) in images.entries && images.entries[SizedUrl(ConstantOf(Irrelevant), size)] == ir
      ensures SizedUrl(ConstantOf(RelevantThreat), size) in images.entries && images.entries[SizedUrl(ConstantOf(RelevantThreat), size)] == tr
      ensures SizedUrl(ConstantOf(Catalyst), size) in images.entries && images.entries[SizedUrl(ConstantOf(Catalyst), size)] == ct
      ensures SizedUrl(ConstantOf(Asset), size) in images.entries && images.entries[SizedUrl(ConstantOf(Asset), size)] == as_
      ensures Grows(old(images.entries), images.entries)
      ensures SubmitsOnly(old(images.pool.jobs), images.pool.jobs,
                          {HttpGet(SizedUrl(ConstantOf(Irrelevant), size)), HttpGet(SizedUrl(ConstantOf(RelevantThreat), size)),
                           HttpGet(SizedUrl(ConstantOf(Catalyst), size)), HttpGet(SizedUrl(ConstantOf(Asset), size))}, 4)
    {
      ir, tr, ct, as_ := RequestFour(size, ConstantOf(Irrelevant), ConstantOf(RelevantThreat), ConstantOf(Catalyst), ConstantOf(Asset));
    }

    /** Four constituent requests in a row; each one's cache entry survives the requests after it. */
    method RequestFour(size: int, k1: Constant, k2: Constant, k3: Constant, k4: Constant)
      returns (f1: FutureId, f2: FutureId, f3: FutureId, f4: FutureId)
      requires Valid() && size != DEFAULT_IMAGE_SIZE
      requires k1.id != Unknown && k2.id != Unknown && k3.id != Unknown && k4.id != Unknown
      modifies this, images, images.pool
      ensures Valid()
      ensures unknownCache == old(unknownCache)
      ensures SizedUrl(k1, size) in images.entries && images.entries[SizedUrl(k1, size)] == f1
      ensures SizedUrl(k2, size) in images.entries && images.entries[SizedUrl(k2, size)] == f2
      ensures SizedUrl(k3, size) in images.entries && images.entries[SizedUrl(k3, size)] == f3
      ensures SizedUrl(k4, size) in images.entries && images.entries[SizedUrl(k4, size)] == f4
      ensures Grows(old(images.entries), images.entries)
      ensures SubmitsOnly(old(images.pool.jobs), images.pool.jobs,
                          {HttpGet(SizedUrl(k1, size)), HttpGet(SizedUrl(k2, size)), HttpGet(SizedUrl(k3, size)), HttpGet(SizedUrl(k4, size))}, 4)
    {
      ghost var j0 := images.pool.jobs;
      f1 := RequestConstituent(k1, size);
      ghost var j1 := images.pool.jobs;
      f2 := RequestConstituent(k2, size);
      ghost var j2 := images.pool.jobs;
      SubmitsOnlyThen(j0, j1, j2, {HttpGet(SizedUrl(k1, size))}, {HttpGet(SizedUrl(k2, size))}, 1, 1);
      f3 := RequestConstituent(k3, size);
      ghost var j3 := images.pool.jobs;
      SubmitsOnlyThen(j0, j2, j3, {HttpGet(SizedUrl(k1, size)), HttpGet(SizedUrl(k2, size))}, {HttpGet(SizedUrl(k3, size))}, 2, 1);
      f4 := RequestConstituent(k4, size);
      SubmitsOnlyThen(j0, j3, images.pool.jobs,
                      {HttpGet(SizedUrl(k1, size)), HttpGet(SizedUrl(k2, size)), HttpGet(SizedUrl(k3, size))}, {HttpGet(SizedUrl(k4, size))}, 3, 1);
    }

    /** One constituent request of the montage: getImg(size) on a classification other than UNKNOWN, which goes through readImg. */
    method RequestConstituent(k: Constant, size: int) returns (f: FutureId)
      requires Valid() && k.id != Unknown && size != DEFAULT_IMAGE_SIZE
      modifies this, images, images.pool
      ensures Valid()
      ensures unknownCache == old(unknownCache)
      ensures SizedUrl(k, size) in images.entries && images.entries[SizedUrl(k, size)] == f
      ensures Grows(old(images.entries), images.entries)
      ensures Memo(old(images.entries), old(images.pool.jobs), SizedUrl(k, size), HttpGet(SizedUrl(k, size)))
              == MemoStep(f, images.entries, images.pool.jobs)
      ensures SubmitsOnly(old(images.pool.jobs), images.pool.jobs, {HttpGet(SizedUrl(k, size))}, 1)
    {
      f := GetImg(k, size);
      assert images.pool.jobs[..|old(images.pool.jobs)|] == old(images.pool.jobs);
    }
  }

  /** The montage is never assembled at the default size: no montage job of that size is ever submitted. */
  lemma NoMontageAtDefaultSize(icons: Icons)
    requires icons.Valid()
    ensures forall i :: 0 <= i < |icons.images.pool.jobs| ==> icons.images.pool.jobs[i] != Montage(DEFAULT_IMAGE_SIZE)
  {
    var jobs := icons.images.pool.jobs;
    forall i | 0 <= i < |jobs|
      ensures jobs[i] != Montage(DEFAULT_IMAGE_SIZE)
    {
      if jobs[i] == Montage(DEFAULT_IMAGE_SIZE) {
        IndexHasEveryKey(jobs, MontageSizeOf, i);
      }
    }
  }

  /** Two default-size requests for one classification submit two separate reads: that size is not cached. */
  method DefaultSizeNeverCached(icons: Icons, k: Constant) returns (f1: FutureId, f2: FutureId)
    requires icons.Valid()
    modifies icons, icons.images, icons.images.pool
    ensures f1 != f2
    ensures |icons.images.pool.jobs| == |old(icons.images.pool.jobs)| + 2
  {
    f1 := icons.GetDefaultImg(k);
    f2 := icons.GetDefaultImg(k);
  }
}
