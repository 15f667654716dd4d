/**
 * Compute-provider preference of the morph service and the two lazily loaded,
 * cached models that depend on it (face analysis and face swapper).
 *
 * A loaded model is represented by the provider list it was built with; the
 * loading itself is a foreign call whose success or failure is a parameter.
 */
module Providers {
  import opened Wrappers

  datatype Provider = CudaExecutionProvider | CpuExecutionProvider

  /** Python's str.isspace() for one character. */
  predicate IsSpace(c: char)
  {
    c == ' ' || ('\t' <= c <= '\r') || ('\U{1c}' <= c <= '\U{1f}')
    || c == '\U{85}' || c == '\U{a0}' || c == '\U{1680}' || ('\U{2000}' <= c <= '\U{200a}')
    || c == '\U{2028}' || c == '\U{2029}' || c == '\U{202f}' || c == '\U{205f}' || c == '\U{3000}'
  }

  /** Every character of s is whitespace. */
  predicate AllSpace(s: string)
  {
    forall k :: 0 <= k < |s| ==> IsSpace(s[k])
  }

  /**
   * Where the leading whitespace run starting at i ends: every character from
   * i up to the result is whitespace, and the result is the end of s or a
   * non-space character.
   */
  function SkipSpaceFrom(s: string, i: nat): (r: nat)
    requires i <= |s|
    ensures i <= r <= |s|
    ensures forall k :: i <= k < r ==> IsSpace(s[k])
    ensures r < |s| ==> !IsSpace(s[r])
    decreases |s| - i
  {
    if i < |s| && IsSpace(s[i]) then SkipSpaceFrom(s, i + 1) else i
  }

  /**
   * Where the trailing whitespace run ending at j starts, never going below
   * lo: every character from the result up to j is whitespace, and the
   * result is lo or follows a non-space character.
   */
  function SkipSpaceBack(s: string, lo: nat, j: nat): (r: nat)
    requires lo <= j <= |s|
    ensures lo <= r <= j
    ensures forall k :: r <= k < j ==> IsSpace(s[k])
    ensures lo < r ==> !IsSpace(s[r - 1])
    decreases j
  {
    if lo < j && IsSpace(s[j - 1]) then SkipSpaceBack(s, lo, j - 1) else j
  }

  /** Python's str.strip() with no argument: drop the leading, then the trailing whitespace. */
  function Strip(s: string): string
  {
    var i := SkipSpaceFrom(s, 0);
    s[i..SkipSpaceBack(s, i, |s|)]
  }

  /** The whitespace strip() removes in front of and behind its result. */
  lemma StripPieces(s: string) returns (pre: string, post: string)
    ensures AllSpace(pre) && AllSpace(post) && s == pre + Strip(s) + post
  {
    var i := SkipSpaceFrom(s, 0);
    var j := SkipSpaceBack(s, i, |s|);
    pre, post := s[..i], s[j..];
    assert s == pre + s[i..j] + post;
  }

  /** The result of strip() neither starts nor ends with whitespace. */
  lemma StripEnds(s: string)
    ensures var r := Strip(s); r == [] || (!IsSpace(r[0]) && !IsSpace(r[|r| - 1]))
  {
    var i := SkipSpaceFrom(s, 0);
    var j := SkipSpaceBack(s, i, |s|);
    if i < j {
      assert Strip(s)[0] == s[i];
      assert Strip(s)[j - i - 1] == s[j - 1];
    }
  }

  /**
   * strip() removes exactly a run of whitespace at each end: the input is
   * whitespace, then the result, then whitespace, and the result neither
   * starts nor ends with whitespace.
   */
  lemma StripSpec(s: string)
    ensures var r := Strip(s);
      && (exists pre, post :: AllSpace(pre) && AllSpace(post) && s == pre + r + post)
      && (r == [] || (!IsSpace(r[0]) && !IsSpace(r[|r| - 1])))
  {
    var pre, post := StripPieces(s);
    StripEnds(s);
  }

  /** "1" surrounded by whitespace only strips to "1". */
  lemma StripIsOne(pre: string, post: string)
    requires AllSpace(pre) && AllSpace(post)
    ensures Strip(pre + "1" + post) == "1"
  {
    var s := pre + "1" + post;
    var n := |pre|;
    assert s[n] == '1';
    assert forall k :: 0 <= k < n ==> s[k] == pre[k];
    assert forall k :: n < k < |s| ==> s[k] == post[k - n - 1];
    var i := SkipSpaceFrom(s, 0);
    assert i == n;
    var j := SkipSpaceBack(s, i, |s|);
    assert j == n + 1;
    assert s[i..j] == "1";
  }

  /**
   * _get_providers: the override decides when set, otherwise USE_CPU;
   * the CPU provider always comes last as the fallback.
   */
  function GetProviders(preferCpuOverride: Option<bool>, useCpuEnv: string): (r: seq<Provider>)
    ensures 1 <= |r| <= 2 && r[|r| - 1] == CpuExecutionProvider
  {
    match preferCpuOverride
    case Some(true) => [CpuExecutionProvider]
    case Some(false) => [CudaExecutionProvider, CpuExecutionProvider]
    case None =>
      if Strip(useCpuEnv) == "1" then [CpuExecutionProvider]
      else [CudaExecutionProvider, CpuExecutionProvider]
  }

  /** CPU only exactly when the override says so, or no override and USE_CPU is "1" after strip(). */
  lemma GetProvidersSpec(preferCpuOverride: Option<bool>, useCpuEnv: string)
    ensures var r := GetProviders(preferCpuOverride, useCpuEnv);
      && (r == [CpuExecutionProvider] <==>
           (preferCpuOverride == Some(true) || (preferCpuOverride == None && Strip(useCpuEnv) == "1")))
      && (r != [CpuExecutionProvider] ==> r == [CudaExecutionProvider, CpuExecutionProvider])
  {
    var both := [CudaExecutionProvider, CpuExecutionProvider];
    assert both != [CpuExecutionProvider] by {
      assert |both| == 2;
    }
  }

  /** The module-level globals _prefer_cpu_override, _face_app and _swapper. */
  datatype CacheState = CacheState(
    preferCpuOverride: Option<bool>,
    faceApp: Option<seq<Provider>>,
    swapper: Option<seq<Provider>>)

  const Empty := CacheState(None, None, None)

  /** The globals after _apply_use_cuda. */
  function AfterUseCuda(s: CacheState, useCuda: Option<bool>): CacheState
  {
    match useCuda
    case None => s
    case Some(u) =>
      if s.preferCpuOverride != Some(!u) then CacheState(Some(!u), None, None) else s
  }

  /**
   * No preference changes nothing; otherwise the override becomes not use_cuda,
   * and both cached models survive exactly when the override did not change.
   */
  lemma ApplyUseCudaSpec(s: CacheState, useCuda: Option<bool>)
    ensures var t := AfterUseCuda(s, useCuda);
      && (useCuda == None ==> t == s)
      && (useCuda.Some? ==>
           && t.preferCpuOverride == Some(!useCuda.value)
           && (s.preferCpuOverride == t.preferCpuOverride ==> t == s)
           && (s.preferCpuOverride != t.preferCpuOverride ==> t.faceApp == None && t.swapper == None))
  {
  }

  /** Applying the same preference twice is the same as applying it once. */
  lemma ApplyUseCudaIdempotent(s: CacheState, useCuda: Option<bool>)
    ensures AfterUseCuda(AfterUseCuda(s, useCuda), useCuda) == AfterUseCuda(s, useCuda)
  {
  }

  /** Every cached model was loaded with the providers the current preference selects. */
  ghost predicate Consistent(s: CacheState, useCpuEnv: string)
  {
    && (s.faceApp.Some? ==> s.faceApp.value == GetProviders(s.preferCpuOverride, useCpuEnv))
    && (s.swapper.Some? ==> s.swapper.value == GetProviders(s.preferCpuOverride, useCpuEnv))
  }

  lemma ApplyUseCudaConsistent(s: CacheState, useCuda: Option<bool>, useCpuEnv: string)
    requires Consistent(s, useCpuEnv)
    ensures Consistent(AfterUseCuda(s, useCuda), useCpuEnv)
  {
  }

  /** An exception raised by a foreign loader, by its Python class and message. */
  datatype Raised = RuntimeErr(msg: string) | OtherErr(msg: string)

  function Message(e: Raised): string
  {
    e.msg
  }

  predicate IsPrefix(p: string, s: string)
  {
    |p| <= |s| && s[..|p|] == p
  }

  /** Python's `sub in s`. */
  predicate Contains(s: string, sub: string)
    decreases |s|
  {
    IsPrefix(sub, s) || (|s| > 0 && Contains(s[1..], sub))
  }

  /**
   * How building the FaceAnalysis object went: it was built and prepared, its
   * constructor raised, or it was built (and stored in the global) and then
   * its prepare call raised.
   */
  datatype FaceAppLoad = Loaded | ConstructFailed(e: Raised) | PrepareFailed(e: Raised)

  /**
   * get_face_app: a cached model is returned as is; otherwise the loader runs
   * with the current providers and any failure becomes a RuntimeError. The
   * global is assigned before prepare runs, so a failing prepare leaves the
   * model cached.
   */
  function FaceAppStep(s: CacheState, useCpuEnv: string, load: FaceAppLoad)
    : (Result<seq<Provider>, Raised>, CacheState)
  {
    if s.faceApp.Some? then (Ok(s.faceApp.value), s)
    else
      var m := GetProviders(s.preferCpuOverride, useCpuEnv);
      match load
      case Loaded => (Ok(m), s.(faceApp := Some(m)))
      case ConstructFailed(e) => (Err(RuntimeErr("Failed to load FaceAnalysis: " + Message(e))), s)
      case PrepareFailed(e) => (Err(RuntimeErr("Failed to load FaceAnalysis: " + Message(e))), s.(faceApp := Some(m)))
  }

  const DownloadFailedMessage := "InSwapper download failed. Run: python download_models.py (uses Hugging Face fallback)"

  /**
   * get_swapper: a cached model is returned as is. Otherwise the download
   * loader runs; a RuntimeError mentioning "Failed downloading" falls back to
   * the local file when it exists (whose own failure propagates unchanged),
   * other RuntimeErrors propagate unchanged and any other exception is wrapped.
   */
  function SwapperStep(s: CacheState, useCpuEnv: string, downloadError: Option<Raised>,
                       localExists: bool, localError: Option<Raised>)
    : (Result<seq<Provider>, Raised>, CacheState)
  {
    var m := GetProviders(s.preferCpuOverride, useCpuEnv);
    if s.swapper.Some? then (Ok(s.swapper.value), s)
    else match downloadError
      case None => (Ok(m), s.(swapper := Some(m)))
      case Some(RuntimeErr(msg)) =>
        if Contains(msg, "Failed downloading") then
          if localExists then
            match localError
            case None => (Ok(m), s.(swapper := Some(m)))
            case Some(e2) => (Err(e2), s)
          else (Err(RuntimeErr(DownloadFailedMessage)), s)
        else (Err(RuntimeErr(msg)), s)
      case Some(OtherErr(msg)) => (Err(RuntimeErr("Failed to load InSwapper: " + msg)), s)
  }

  /**
   * Loading keeps the cache consistent and leaves the preference and the other
   * model alone. A model built with the current providers ends up cached
   * (after a successful load, and also after a failing prepare), so the next
   * call returns it without loading; only a failing constructor caches nothing.
   */
  lemma FaceAppCaches(s: CacheState, useCpuEnv: string, load: FaceAppLoad, again: FaceAppLoad)
    requires Consistent(s, useCpuEnv)
    ensures var (r, t) := FaceAppStep(s, useCpuEnv, load);
      var m := GetProviders(s.preferCpuOverride, useCpuEnv);
      && Consistent(t, useCpuEnv)
      && t.preferCpuOverride == s.preferCpuOverride && t.swapper == s.swapper
      && (r.Ok? ==> r.value == m && FaceAppStep(t, useCpuEnv, again) == (r, t))
      && (r.Err? <==> s.faceApp == None && !load.Loaded?)
      && (r.Err? ==> r.error == RuntimeErr("Failed to load FaceAnalysis: " + Message(load.e)))
      && (t == s <==> s.faceApp.Some? || load.ConstructFailed?)
      && (s.faceApp == None && load.PrepareFailed? ==>
            t.faceApp == Some(m) && FaceAppStep(t, useCpuEnv, again) == (Ok(m), t))
  {
  }

  lemma SwapperCaches(s: CacheState, useCpuEnv: string, downloadError: Option<Raised>,
                      localExists: bool, localError: Option<Raised>,
                      again: Option<Raised>, againExists: bool, againLocal: Option<Raised>)
    requires Consistent(s, useCpuEnv)
    ensures var (r, t) := SwapperStep(s, useCpuEnv, downloadError, localExists, localError);
      && Consistent(t, useCpuEnv)
      && t.preferCpuOverride == s.preferCpuOverride && t.faceApp == s.faceApp
      && (r.Ok? ==> r.value == GetProviders(s.preferCpuOverride, useCpuEnv)
                    && SwapperStep(t, useCpuEnv, again, againExists, againLocal) == (r, t))
      && (r.Err? ==> t == s && s.swapper == None && downloadError.Some?)
  {
  }

  /** A download failure with no local copy ends in the fixed advice message. */
  lemma SwapperDownloadFallback(s: CacheState, useCpuEnv: string, msg: string, localError: Option<Raised>)
    requires s.swapper == None && Contains(msg, "Failed downloading")
    ensures SwapperStep(s, useCpuEnv, Some(RuntimeErr(msg)), false, localError).0
            == Err(RuntimeErr(DownloadFailedMessage))
    ensures localError == None ==>
            SwapperStep(s, useCpuEnv, Some(RuntimeErr(msg)), true, localError).0
            == Ok(GetProviders(s.preferCpuOverride, useCpuEnv))
  {
  }

  /** The process-wide state: the override and the two cached models. */
  class ModelCache {
    var preferCpuOverride: Option<bool>
    var faceApp: Option<seq<Provider>>
    var swapper: Option<seq<Provider>>
    const useCpuEnv: string

    function State(): CacheState
      reads this
    {
      CacheState(preferCpuOverride, faceApp, swapper)
    }

    ghost predicate Valid()
      reads this
    {
      Consistent(State(), useCpuEnv)
    }

    constructor (env: string)
      ensures State() == Empty && useCpuEnv == env && Valid()
    {
      preferCpuOverride := None;
      faceApp := None;
      swapper := None;
      useCpuEnv := env;
    }

    method ApplyUseCuda(useCuda: Option<bool>)
      requires Valid()
      modifies this
      ensures Valid() && State() == AfterUseCuda(old(State()), useCuda)
    {
      ApplyUseCudaConsistent(State(), useCuda, useCpuEnv);
      if useCuda == None {
        return;
      }
      var newPreferCpu := !useCuda.value;
      if preferCpuOverride != Some(newPreferCpu) {
        preferCpuOverride := Some(newPreferCpu);
        faceApp := None;
        swapper := None;
      }
    }

    method CurrentProviders() returns (r: seq<Provider>)
      ensures r == GetProviders(preferCpuOverride, useCpuEnv)
    {
      if preferCpuOverride == Some(true) {
        return [CpuExecutionProvider];
      }
      if preferCpuOverride == Some(false) {
        return [CudaExecutionProvider, CpuExecutionProvider];
      }
      if Strip(useCpuEnv) == "1" {
        return [CpuExecutionProvider];
      }
      return [CudaExecutionProvider, CpuExecutionProvider];
    }

    method GetFaceApp(load: FaceAppLoad) returns (r: Result<seq<Provider>, Raised>)
      requires Valid()
      modifies this
      ensures Valid() && (r, State()) == FaceAppStep(old(State()), useCpuEnv, load)
    {
      FaceAppCaches(State(), useCpuEnv, load, Loaded);
      if faceApp == None {
        if load.ConstructFailed? {
          return Err(RuntimeErr("Failed to load FaceAnalysis: " + Message(load.e)));
        }
        var p := CurrentProviders();
        faceApp := Some(p);
        if load.PrepareFailed? {
          return Err(RuntimeErr("Failed to load FaceAnalysis: " + Message(load.e)));
        }
      }
      return Ok(faceApp.value);
    }

    method GetSwapper(downloadError: Option<Raised>, localExists: bool, localError: Option<Raised>)
      returns (r: Result<seq<Provider>, Raised>)
      requires Valid()
      modifies this
      ensures Valid()
      ensures (r, State()) == SwapperStep(old(State()), useCpuEnv, downloadError, localExists, localError)
    {
      SwapperCaches(State(), useCpuEnv, downloadError, localExists, localError, None, false, None);
      if swapper == None {
        var prov := CurrentProviders();
        match downloadError {
          case None =>
            swapper := Some(prov);
          case Some(RuntimeErr(msg)) =>
            if Contains(msg, "Failed downloading") {
              if localExists {
                if localError.Some? {
                  return Err(localError.value);
                }
                var p := CurrentProviders();
                swapper := Some(p);
              } else {
                return Err(RuntimeErr(DownloadFailedMessage));
              }
            } else {
              return Err(RuntimeErr(msg));
            }
          case Some(OtherErr(msg)) =>
            return Err(RuntimeErr("Failed to load InSwapper: " + msg));
        }
      }
      return Ok(swapper.value);
    }
  }
}
