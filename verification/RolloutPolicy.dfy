/** Which lifecycle action an updated allocation gets: the restart policy applied to its file changes. */
module RolloutPolicy {
  import opened Seqs
  import opened FileManifests

  datatype Action = Start | Restart | Reload | Sync | Skip | Stop | Promote | StopPromote

  const RESTART_POLICY_ALWAYS := "always"
  const RESTART_POLICY_RELOAD := "reload"
  const RESTART_POLICY_NEVER := "never"

  /** What the policy is asked about: why the allocation is rolled out, and its two manifests. */
  datatype Update = Update(
    previousFiles: Manifest, currentFiles: Manifest,
    hashChanged: bool, versionOnly: bool, legacyNoManifest: bool)

  /** Some changed path is selected by some glob. */
  ghost predicate Triggered(matcher: Matcher, globs: seq<string>, u: Update) {
    exists path :: Differs(u.previousFiles, u.currentFiles, path) && Selected(matcher, globs, path)
  }

  ghost function UpdateAction(syncOnly: bool, policy: string, matcher: Matcher, globs: seq<string>, u: Update): Action {
    if syncOnly || policy == RESTART_POLICY_NEVER then Sync
    else if policy != RESTART_POLICY_RELOAD then Restart
    else if u.versionOnly && !u.hashChanged then Reload
    else if u.legacyNoManifest && u.hashChanged then Reload
    else if Triggered(matcher, globs, u) then Restart
    else Reload
  }

  /** The paths reported with the action: where globs turn a reload into a restart, every path that did, sorted. */
  ghost function MatchedPaths(syncOnly: bool, policy: string, matcher: Matcher, globs: seq<string>, u: Update): seq<string> {
    if policy == RESTART_POLICY_RELOAD && UpdateAction(syncOnly, policy, matcher, globs, u) == Restart then
      SortedList(set path | path in u.previousFiles.Keys + u.currentFiles.Keys
                            && Differs(u.previousFiles, u.currentFiles, path) && Selected(matcher, globs, path))
    else []
  }

  method ResolveUpdateAction(syncOnly: bool, policy: string, matcher: Matcher, globs: seq<string>, u: Update)
    returns (action: Action, matched: seq<string>)
    ensures action == UpdateAction(syncOnly, policy, matcher, globs, u)
    ensures matched == MatchedPaths(syncOnly, policy, matcher, globs, u)
    ensures matched != [] ==> action == Restart && policy == RESTART_POLICY_RELOAD
    ensures policy == RESTART_POLICY_RELOAD && action == Restart ==>
      matched != [] && NoDup(matched) && forall path ::
        path in matched <==> Differs(u.previousFiles, u.currentFiles, path) && Selected(matcher, globs, path)
  {
    if syncOnly {
      return Sync, [];
    }
    if policy == RESTART_POLICY_NEVER {
      return Sync, [];
    } else if policy == RESTART_POLICY_ALWAYS {
      return Restart, [];
    } else if policy == RESTART_POLICY_RELOAD {
      if u.versionOnly && !u.hashChanged {
        return Reload, [];
      }
      if u.legacyNoManifest && u.hashChanged {
        return Reload, [];
      }
      if |globs| == 0 {
        return Reload, [];
      }
      var changed := DiffFileManifests(u.previousFiles, u.currentFiles);
      matched := MatchAny(matcher, globs, changed);
      if |matched| > 0 {
        assert matched[0] in matched;
        SortedListIsUnique(matched, MatchedPaths(syncOnly, policy, matcher, globs, u));
        return Restart, matched;
      }
      assert forall path :: path !in matched;
      return Reload, [];
    }
    return Restart, [];
  }

  /** The policy by its texts: what each says of an update, whatever the flags and manifests. */
  lemma PolicyTexts(syncOnly: bool, policy: string, matcher: Matcher, globs: seq<string>, u: Update)
    ensures var action := UpdateAction(syncOnly, policy, matcher, globs, u);
      && (syncOnly || policy == "never" ==> action == Sync)
      && (!syncOnly && policy != "never" && policy != "reload" ==> action == Restart)
      && (!syncOnly && policy == "reload" ==>
            && action in {Reload, Restart}
            && (u.versionOnly && !u.hashChanged ==> action == Reload)
            && (u.legacyNoManifest && u.hashChanged ==> action == Reload))
  {
  }

  /** Under the reload policy, with files to compare, the action is restart exactly when a changed path is selected. */
  lemma RestartIffTriggered(matcher: Matcher, globs: seq<string>, u: Update)
    requires !(u.versionOnly && !u.hashChanged) && !(u.legacyNoManifest && u.hashChanged)
    ensures UpdateAction(false, RESTART_POLICY_RELOAD, matcher, globs, u) == Restart <==>
            exists path, g :: Differs(u.previousFiles, u.currentFiles, path) && g in globs && matcher(g, path)
  {
  }

  /** More globs can turn a reload into a restart and change nothing else. */
  lemma MoreGlobsNeverDowngrade(
    syncOnly: bool, policy: string, matcher: Matcher, fewer: seq<string>, more: seq<string>, u: Update)
    requires forall g :: g in fewer ==> g in more
    ensures UpdateAction(syncOnly, policy, matcher, fewer, u) == UpdateAction(syncOnly, policy, matcher, more, u)
         || (UpdateAction(syncOnly, policy, matcher, fewer, u) == Reload
             && UpdateAction(syncOnly, policy, matcher, more, u) == Restart)
  {
  }
}
