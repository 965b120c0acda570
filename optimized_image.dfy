/** The optimised image: rewriting of Cloudinary delivery URLs into a WebP
    transformation and a responsive `srcSet`, and the three flags (loaded, in view,
    failed) that decide what is rendered. */
module OptimizedImage {
  import opened Optional
  import opened Text

  const CloudinaryHost := "cloudinary.com"
  const Upload := "/upload/"
  /** The transformation inserted after `/upload/` for the main image. */
  const Transformation := "f_webp,q_auto,w_auto,dpr_auto,c_scale/"

  /** The two pieces of `src.split('/upload/')` when there are exactly two. */
  function UploadParts(src: string): (parts: Option<(string, string)>)
    ensures parts.Some? ==> src == parts.value.0 + Upload + parts.value.1
  {
    var pieces := Split(src, Upload);
    if |pieces| == 2 then
      assert Join(pieces, Upload) == pieces[0] + Upload + pieces[1];
      Some((pieces[0], pieces[1]))
    else None
  }

  /** The URL of the main image: a Cloudinary URL that splits into exactly two pieces
      around `/upload/` gets the transformation inserted right after that marker;
      every other URL is kept as it is. */
  function GetOptimizedSrc(src: string): (out: string)
    ensures !Contains(src, CloudinaryHost) ==> out == src
    ensures !Contains(src, Upload) ==> out == src
    ensures Contains(src, CloudinaryHost) && UploadParts(src).Some? ==>
              out == UploadParts(src).value.0 + Upload + Transformation + UploadParts(src).value.1
    ensures !(Contains(src, CloudinaryHost) && UploadParts(src).Some?) ==> out == src
  {
    SplitWhole(src, Upload);
    if Contains(src, CloudinaryHost) then
      match UploadParts(src)
      case Some((prefix, rest)) => prefix + Upload + Transformation + rest
      case None => src
    else src
  }

  /** A Cloudinary URL whose only `/upload/` sits between `prefix` and `rest`, with no
      occurrence met before it, is rewritten to carry the transformation there. */
  lemma OptimizedSrcSingleUpload(prefix: string, rest: string)
    requires Contains(prefix + Upload + rest, CloudinaryHost)
    requires forall k | 0 <= k < |prefix| :: !OccursAt(prefix + Upload + rest, Upload, k)
    requires !Contains(rest, Upload)
    ensures GetOptimizedSrc(prefix + Upload + rest) == prefix + Upload + Transformation + rest
  {
    SplitInTwo(prefix + Upload + rest, Upload, prefix, rest);
  }

  /** A URL with two non-overlapping `/upload/` markers is kept as it is. */
  lemma OptimizedSrcSeveralUploads(src: string, i: nat, j: nat)
    requires OccursAt(src, Upload, i) && OccursAt(src, Upload, j) && i + |Upload| <= j
    ensures GetOptimizedSrc(src) == src
    ensures GetSrcSet(src) == None
  {
    SplitSeveral(src, Upload, i, j);
  }

  /** The four widths of the responsive candidates, in the order listed. */
  const Widths: seq<nat> := [400, 800, 1200, 1600]

  /** The four `srcSet` candidates for the two pieces around `/upload/`. */
  function SrcSetEntries(baseUrl: string, imagePath: string): (entries: seq<string>)
    ensures |entries| == |Widths|
    ensures forall i | 0 <= i < |entries| :: baseUrl <= entries[i]
  {
    [ baseUrl + "/upload/f_webp,q_auto,w_400,dpr_auto,c_scale/" + imagePath + " 400w",
      baseUrl + "/upload/f_webp,q_auto,w_800,dpr_auto,c_scale/" + imagePath + " 800w",
      baseUrl + "/upload/f_webp,q_auto,w_1200,dpr_auto,c_scale/" + imagePath + " 1200w",
      baseUrl + "/upload/f_webp,q_auto,w_1600,dpr_auto,c_scale/" + imagePath + " 1600w" ]
  }

  /** The candidate of width `w`: the transformation requests width `w`, and the
      descriptor after the URL announces the same `w`. */
  function Candidate(baseUrl: string, imagePath: string, w: nat): string {
    baseUrl + (Upload + WidthTransformation(w)) + imagePath + (" " + NatToString(w) + "w")
  }

  /** The transformation that requests width `w`. */
  function WidthTransformation(w: nat): string {
    "f_webp,q_auto,w_" + NatToString(w) + ",dpr_auto,c_scale/"
  }

  /** The responsive `srcSet`: absent unless the URL is a Cloudinary URL that splits
      into exactly two pieces around `/upload/`; otherwise its four candidates joined
      with ", ". */
  function GetSrcSet(src: string): (srcSet: Option<string>)
    ensures srcSet.Some? <==> Contains(src, CloudinaryHost) && UploadParts(src).Some?
    ensures srcSet.Some? ==>
              srcSet.value == Join(SrcSetEntries(UploadParts(src).value.0, UploadParts(src).value.1), ", ")
  {
    if Contains(src, CloudinaryHost) then
      match UploadParts(src)
      case Some((baseUrl, imagePath)) => Some(Join(SrcSetEntries(baseUrl, imagePath), ", "))
      case None => None
    else None
  }

  /** The decimal form of each width and the transformation and descriptor it goes
      into, spelled out. */
  lemma Digits400()
    ensures NatToString(400) == "400"
  {
    assert NatToString(4) == "4"; assert NatToString(40) == "40";
  }

  lemma Spelled400()
    ensures Upload + WidthTransformation(400) == "/upload/f_webp,q_auto,w_400,dpr_auto,c_scale/"
    ensures " " + NatToString(400) + "w" == " 400w"
  {
    Digits400();
  }

  lemma Digits800()
    ensures NatToString(800) == "800"
  {
    assert NatToString(8) == "8"; assert NatToString(80) == "80";
  }

  lemma Spelled800()
    ensures Upload + WidthTransformation(800) == "/upload/f_webp,q_auto,w_800,dpr_auto,c_scale/"
    ensures " " + NatToString(800) + "w" == " 800w"
  {
    Digits800();
  }

  lemma Digits1200()
    ensures NatToString(1200) == "1200"
  {
    assert NatToString(1) == "1"; assert NatToString(12) == "12"; assert NatToString(120) == "120";
  }

  lemma Spelled1200()
    ensures Upload + WidthTransformation(1200) == "/upload/f_webp,q_auto,w_1200,dpr_auto,c_scale/"
    ensures " " + NatToString(1200) + "w" == " 1200w"
  {
    Digits1200();
  }

  lemma Digits1600()
    ensures NatToString(1600) == "1600"
  {
    assert NatToString(1) == "1"; assert NatToString(16) == "16"; assert NatToString(160) == "160";
  }

  lemma Spelled1600()
    ensures Upload + WidthTransformation(1600) == "/upload/f_webp,q_auto,w_1600,dpr_auto,c_scale/"
    ensures " " + NatToString(1600) + "w" == " 1600w"
  {
    Digits1600();
  }

  /** The candidate of each width, spelled out as the source lists it. */
  lemma CandidatesSpelled(baseUrl: string, imagePath: string)
    ensures Candidate(baseUrl, imagePath, 400) ==
              baseUrl + "/upload/f_webp,q_auto,w_400,dpr_auto,c_scale/" + imagePath + " 400w"
    ensures Candidate(baseUrl, imagePath, 800) ==
              baseUrl + "/upload/f_webp,q_auto,w_800,dpr_auto,c_scale/" + imagePath + " 800w"
    ensures Candidate(baseUrl, imagePath, 1200) ==
              baseUrl + "/upload/f_webp,q_auto,w_1200,dpr_auto,c_scale/" + imagePath + " 1200w"
    ensures Candidate(baseUrl, imagePath, 1600) ==
              baseUrl + "/upload/f_webp,q_auto,w_1600,dpr_auto,c_scale/" + imagePath + " 1600w"
  {
    Spelled400();
    Spelled800();
    Spelled1200();
    Spelled1600();
  }

  /** The candidates are listed by strictly increasing width, and each one requests in
      its `w_` parameter the width its trailing descriptor announces. */
  lemma SrcSetEntriesAgree(baseUrl: string, imagePath: string)
    ensures forall i, j | 0 <= i < j < |Widths| :: Widths[i] < Widths[j]
    ensures |SrcSetEntries(baseUrl, imagePath)| == |Widths|
    ensures forall i | 0 <= i < |Widths| :: SrcSetEntries(baseUrl, imagePath)[i] == Candidate(baseUrl, imagePath, Widths[i])
  {
    CandidatesSpelled(baseUrl, imagePath);
    var entries := SrcSetEntries(baseUrl, imagePath);
    forall i | 0 <= i < |Widths| ensures entries[i] == Candidate(baseUrl, imagePath, Widths[i]) {
      if i == 0 {
      } else if i == 1 {
      } else if i == 2 {
      } else {
      }
    }
  }

  /** How the main image is loaded. */
  datatype Loading = Eager | Lazy

  /** `priority ? 'eager' : 'lazy'`. */
  function LoadingFor(priority: bool): (loading: Loading)
    ensures loading == Eager <==> priority
  {
    if priority then Eager else Lazy
  }

  /** How the main image fits its box. */
  datatype ObjectFit = Contain | Cover

  /** `object-contain` when the class names ask for it, `object-cover` otherwise. */
  function ObjectFitFor(className: string): (fit: ObjectFit)
    ensures fit == Contain <==> Contains(className, "object-contain")
  {
    if Contains(className, "object-contain") then Contain else Cover
  }

  /** Which of the four layers is rendered. */
  datatype Layers = Layers(placeholder: bool, mainImage: bool, errorFallback: bool, spinner: bool)

  /** The layers for a combination of the three flags. */
  function LayersFor(isLoaded: bool, isInView: bool, hasError: bool): (layers: Layers)
    ensures layers.placeholder <==> !isLoaded && !hasError
    ensures layers.mainImage <==> isInView
    ensures layers.errorFallback <==> hasError
    ensures layers.spinner <==> layers.placeholder && isInView
  {
    Layers(!isLoaded && !hasError, isInView, hasError, !isLoaded && !hasError && isInView)
  }

  /** The spinner is only ever drawn over the placeholder and beside the main image,
      and neither the placeholder nor the spinner is drawn over the error fallback. */
  lemma LayersConsistent(isLoaded: bool, isInView: bool, hasError: bool)
    ensures var layers := LayersFor(isLoaded, isInView, hasError);
            (layers.spinner ==> layers.placeholder && layers.mainImage) &&
            (layers.errorFallback ==> !layers.placeholder && !layers.spinner)
  {
  }

  /** The attributes of the main image element. */
  datatype MainImageAttributes = MainImageAttributes(src: string, srcSet: Option<string>, fit: ObjectFit, loading: Loading)

  /** The flags of one image and its viewport observer. */
  class ImageState {
    const src: string
    const className: string
    const priority: bool
    var isLoaded: bool
    var isInView: bool
    var hasError: bool
    /** The viewport observer is connected (it is created only without priority, and
        disconnected at the first intersection). */
    var observing: bool

    /** The observer is connected exactly while the image is not yet in view. */
    ghost predicate Valid()
      reads this
    {
      observing <==> !isInView
    }

    constructor (src: string, className: string, priority: bool)
      ensures Valid()
      ensures this.src == src && this.className == className && this.priority == priority
      ensures !isLoaded && !hasError && isInView == priority && observing == !priority
    {
      this.src := src;
      this.className := className;
      this.priority := priority;
      isLoaded := false;
      isInView := priority;
      hasError := false;
      observing := !priority;
    }

    /** The observer reports an entry: an intersection brings the image into view and
        disconnects the observer; once in view, it stays in view. */
    method ObserverCallback(isIntersecting: bool)
      requires Valid()
      modifies this
      ensures Valid()
      ensures isInView == (old(isInView) || isIntersecting)
      ensures isLoaded == old(isLoaded) && hasError == old(hasError)
    {
      if observing && isIntersecting {
        isInView := true;
        observing := false;
      }
    }

    /** The main image finished loading. */
    method HandleLoad()
      requires Valid()
      modifies this
      ensures Valid()
      ensures isLoaded && isInView == old(isInView) && hasError == old(hasError) && observing == old(observing)
      ensures !Rendered().placeholder && !Rendered().spinner
    {
      isLoaded := true;
    }

    /** The main image failed to load. */
    method HandleError()
      requires Valid()
      modifies this
      ensures Valid()
      ensures hasError && isInView == old(isInView) && isLoaded == old(isLoaded) && observing == old(observing)
      ensures Rendered().errorFallback && !Rendered().placeholder && !Rendered().spinner
    {
      hasError := true;
    }

    /** The main image element, drawn only once in view: its source and `srcSet` come
        from the image's URL, its fit from the class names and its loading from the
        priority hint. */
    function MainImage(): (img: Option<MainImageAttributes>)
      reads this
      ensures img.Some? <==> isInView
      ensures img.Some? ==> (img.value.loading == Eager <==> priority)
      ensures img.Some? ==> (img.value.fit == Contain <==> Contains(className, "object-contain"))
      ensures img.Some? && !Contains(src, CloudinaryHost) ==> img.value.src == src && img.value.srcSet == None
      ensures img.Some? && Contains(src, CloudinaryHost) && UploadParts(src).None? ==>
                img.value.src == src && img.value.srcSet == None
      ensures img.Some? && Contains(src, CloudinaryHost) && UploadParts(src).Some? ==>
                img.value.src == UploadParts(src).value.0 + Upload + Transformation + UploadParts(src).value.1 &&
                img.value.srcSet == Some(Join(SrcSetEntries(UploadParts(src).value.0, UploadParts(src).value.1), ", "))
    {
      if isInView then
        Some(MainImageAttributes(GetOptimizedSrc(src), GetSrcSet(src), ObjectFitFor(className), LoadingFor(priority)))
      else None
    }

    /** The layers rendered in the current state. */
    function Rendered(): Layers
      reads this
    {
      LayersFor(isLoaded, isInView, hasError)
    }
  }
}
