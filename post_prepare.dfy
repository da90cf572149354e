/** The entry point of the post-prepare hook (src/post-prepare.js): which
    platforms the per-platform steps run for, and in what order. */
module PostPrepare {
  import opened Base
  import opened IconPlanner

  /** Lines 13-29: without a `platforms` directory the hook rejects;
      otherwise Android's steps run first when it is present, then iOS's. */
  function PlatformsToPrepare(hasPlatforms: bool, hasAndroid: bool, hasIos: bool): (r: Result<seq<Platform>>)
    ensures r.Err? <==> !hasPlatforms
    ensures r.Err? ==> r.error == NoPlatformsDirectory
    ensures r.Ok? ==> (Android in r.value <==> hasAndroid) && (Ios in r.value <==> hasIos)
    ensures r.Ok? ==> |r.value| <= 2 && (|r.value| == 2 ==> r.value == [Android, Ios])
  {
    if !hasPlatforms then Err(NoPlatformsDirectory)
    else Ok((if hasAndroid then [Android] else []) + (if hasIos then [Ios] else []))
  }
}
