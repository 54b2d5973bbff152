/**
 * The frame-buffer sample's `PostProcess` enum — its shader names and its lookup by name through a
 * lazily built dictionary — and the renderer property that rebuilds the post-processing pipeline
 * whenever the effect changes.
 */
module PostProcess {
  import Common

  /** `PostProcess`, its six cases in declaration order. */
  datatype PostProcess = None | Inversion | GrayScale | Sharpen | Blur | EdgeDetect

  /** `allCases` */
  const AllCases: seq<PostProcess> := [None, Inversion, GrayScale, Sharpen, Blur, EdgeDetect]

  /** `"\(p)"`: a case prints as its own name. */
  function CaseName(p: PostProcess): string {
    match p
    case None => "None"
    case Inversion => "Inversion"
    case GrayScale => "GrayScale"
    case Sharpen => "Sharpen"
    case Blur => "Blur"
    case EdgeDetect => "EdgeDetect"
  }

  /** `fragmentFuncName`: the shader function each effect draws with. */
  function FragmentFuncName(p: PostProcess): string {
    match p
    case None => "postFragmentShader"
    case Inversion => "inversionFragmentShader"
    case GrayScale => "grayscaleFragmentShader"
    case Sharpen => "sharpenFragmentShader"
    case Blur => "blurFragmentShader"
    case EdgeDetect => "edgeDetectFragmentShader"
  }

  /** Six cases, six different shaders: the shader name determines the effect. */
  lemma FragmentFuncNamesDistinct(p: PostProcess, q: PostProcess)
    ensures FragmentFuncName(p) == FragmentFuncName(q) <==> p == q
  {
    if p != q {
      assert FragmentFuncName(p)[0] != FragmentFuncName(q)[0];
    }
  }

  /** `allCases` holds every case once, in declaration order. */
  lemma AllCasesOnce(p: PostProcess)
    ensures p in AllCases
    ensures forall i, j :: 0 <= i < j < |AllCases| ==> AllCases[i] != AllCases[j]
  {
    match p {
      case None => assert AllCases[0] == p;
      case Inversion => assert AllCases[1] == p;
      case GrayScale => assert AllCases[2] == p;
      case Sharpen => assert AllCases[3] == p;
      case Blur => assert AllCases[4] == p;
      case EdgeDetect => assert AllCases[5] == p;
    }
  }

  /** `getSupportedPostProcesses()`: the same list as `allCases`, so every effect once, in declaration order. */
  function SupportedPostProcesses(): (r: seq<PostProcess>)
    ensures r == AllCases
  {
    [None, Inversion, GrayScale, Sharpen, Blur, EdgeDetect]
  }

  /** `Dictionary(uniqueKeysWithValues: allCases.map { ("\($0)", $0) })` */
  function NameTable(): (r: map<string, PostProcess>)
    ensures forall p :: CaseName(p) in r && r[CaseName(p)] == p
    ensures forall s :: s in r ==> s == CaseName(r[s])
  {
    map["None" := None, "Inversion" := Inversion, "GrayScale" := GrayScale, "Sharpen" := Sharpen,
        "Blur" := Blur, "EdgeDetect" := EdgeDetect]
  }

  /** The case names differ, so building the dictionary with unique keys cannot trap. */
  lemma CaseNamesDistinct(p: PostProcess, q: PostProcess)
    ensures CaseName(p) == CaseName(q) <==> p == q
  {
    var t := NameTable();
    if CaseName(p) == CaseName(q) {
      assert t[CaseName(p)] == p && t[CaseName(q)] == q;
    }
  }

  /** The static `cachedLookup`, empty until the first `init?(rawValue:)`. */
  class Lookup {
    var cachedLookup: map<string, PostProcess>

    constructor ()
      ensures cachedLookup == map[]
    {
      cachedLookup := map[];
    }

    /** The cache is either not built yet or the full name table. */
    predicate Valid()
      reads this
    {
      cachedLookup == map[] || cachedLookup == NameTable()
    }

    /**
     * `init?(rawValue:)`: the dictionary is built when it is empty and reused afterwards; the
     * case whose name is `rawValue`, or nil.
     */
    method FromRawValue(rawValue: string) returns (r: Common.Option<PostProcess>)
      requires Valid()
      modifies this
      ensures Valid() && cachedLookup == NameTable()
      ensures r == LookupName(rawValue)
    {
      if cachedLookup == map[] {
        cachedLookup := NameTable();
      }
      if rawValue in cachedLookup {
        return Common.Some(cachedLookup[rawValue]);
      }
      return Common.None;
    }
  }

  /** What `init?(rawValue:)` answers, independently of the cache's state. */
  function LookupName(rawValue: string): (r: Common.Option<PostProcess>)
    ensures r.Some? <==> exists p :: CaseName(p) == rawValue
    ensures r.Some? ==> CaseName(r.value) == rawValue
  {
    var t := NameTable();
    if rawValue in t then Common.Some(t[rawValue]) else Common.None
  }

  /** The round trip: looking up a case's printed name gives the case back. */
  lemma LookupCaseName(p: PostProcess)
    ensures LookupName(CaseName(p)) == Common.Some(p)
  {
    CaseNamesDistinct(p, LookupName(CaseName(p)).value);
  }

  /** Which pipeline the renderer builds for the post-processing pass. */
  datatype PipelineDescriptor = PipelineDescriptor(pipelineLabel: string, vertexFunction: string, fragmentFunction: string, pixelFormat: int)

  /** The post-processing pipeline for an effect: the shared vertex shader, the effect's fragment shader. */
  function PostPipeline(p: PostProcess, colorTextureFormat: int): (r: PipelineDescriptor)
    ensures r.fragmentFunction == FragmentFuncName(p) && r.pixelFormat == colorTextureFormat
  {
    PipelineDescriptor("post processing pipeline", "postVertexShader", FragmentFuncName(p), colorTextureFormat)
  }

  /** The part of the frame-buffer renderer that holds the post-processing effect and its pipeline. */
  class Renderer {
    var postProcessMethod: PostProcess
    var colorTextureFormat: int
    var postProcessingPipeline: PipelineDescriptor

    /** The pipeline always draws the current effect. */
    predicate Valid()
      reads this
    {
      postProcessingPipeline == PostPipeline(postProcessMethod, colorTextureFormat)
    }

    /** `init(metalView:)`: the effect starts as `.None`, and the pipeline is built for it. */
    constructor (colorPixelFormat: int)
      ensures postProcessMethod == None && colorTextureFormat == colorPixelFormat
      ensures Valid()
    {
      postProcessMethod := None;
      colorTextureFormat := colorPixelFormat;
      postProcessingPipeline := PostPipeline(None, colorPixelFormat);
    }

    /** Assigning `postProcessMethod`: `didSet` rebuilds the pipeline with the new effect's shader. */
    method SetPostProcessMethod(p: PostProcess)
      modifies this
      ensures postProcessMethod == p && colorTextureFormat == old(colorTextureFormat)
      ensures postProcessingPipeline == PostPipeline(p, colorTextureFormat)
      ensures Valid()
    {
      postProcessMethod := p;
      postProcessingPipeline := PostPipeline(postProcessMethod, colorTextureFormat);
    }
  }

  /** A valid renderer's pipeline tells which effect is selected. */
  lemma PipelineDeterminesEffect(p: PostProcess, q: PostProcess, format: int)
    ensures PostPipeline(p, format) == PostPipeline(q, format) <==> p == q
  {
    FragmentFuncNamesDistinct(p, q);
  }
}
