/** The merge on whole documents, and `mergeConfigFromBackup` around it. */
module ConfigFile {
  import opened Json
  import opened Options
  import W = WrittenMerge
  import M = Merge

  predicate MemberIsObj(target: Json, k: string) {
    target.Obj? && HasObj(target.members, k)
  }

  predicate ContainsKey(target: Json, k: string) {
    target.Obj? && Has(target.members, k)
  }

  /** `target[k] = v`: a null becomes an object, any other non-object stays what it is. */
  function SetMember(target: Json, k: string, v: Json): Json {
    if target.Obj? then Obj(Set(target.members, k, v))
    else if target.Null? then Obj(Cons(k, v, Nil))
    else target
  }

  /** `target.to<JsonObject>().createNestedObject(k)`: whatever the target held is gone. */
  function Emptied(k: string): Json {
    Obj(Cons(k, Obj(Nil), Nil))
  }

  function MergeMembers(target: Json, s: Members): Json
    decreases s
  {
    match s
    case Nil => target
    case Cons(k, v, rest) =>
      if v.Obj? then
        var t1 := if MemberIsObj(target, k) then target else Emptied(k);
        MergeMembers(SetMember(t1, k, MergeMembers(Find(t1.members, k).value, v.members)), rest)
      else if ContainsKey(target, k) then MergeMembers(target, rest)
      else MergeMembers(SetMember(target, k, v), rest)
  }

  function MergeJsonObjects(target: Json, source: Json): Json {
    if source.Obj? then MergeMembers(target, source.members) else target
  }

  /** On object targets this is the member-list merge studied in module WrittenMerge. */
  lemma {:induction false} OnObjects(t: Members, s: Members)
    ensures MergeMembers(Obj(t), s) == Obj(W.Written(t, s))
    decreases s
  {
    match s {
      case Nil =>
      case Cons(k, v, rest) =>
        if v.Obj? {
          var t1 := if HasObj(t, k) then t else Cons(k, Obj(Nil), Nil);
          var below := Find(t1, k).value.members;
          OnObjects(below, v.members);
          OnObjects(Set(t1, k, Obj(W.Written(below, v.members))), rest);
        } else {
          OnObjects(if Has(t, k) then t else Set(t, k, v), rest);
        }
    }
  }

  /** A target that is no object: null takes the leaves, anything else ignores them, and any object collapses the source. */
  lemma {:induction false} OnOtherTargets(target: Json, s: Members)
    requires !target.Obj? && Unique(s)
    ensures MergeMembers(target, s) ==
            if AnyObj(s) || (target.Null? && s.Cons?) then Obj(W.Collapse(s)) else target
    decreases s
  {
    if s.Cons? {
      if s.value.Obj? || target.Null? {
        OnObjects(Nil, s);
        W.FromEmpty(s);
        NullIsEmpty(s);
        OthersStartOver(target, s);
      } else {
        OnOtherTargets(target, s.rest);
      }
    }
  }

  lemma NullIsEmpty(s: Members)
    requires s.Cons?
    ensures MergeMembers(Null, s) == MergeMembers(Obj(Nil), s)
  {}

  lemma OthersStartOver(target: Json, s: Members)
    requires !target.Obj? && s.Cons? && (s.value.Obj? || target.Null?)
    ensures MergeMembers(target, s) == MergeMembers(Obj(Nil), s)
  {}

  // ---------- the two files ----------

  /** A file as the JSON parser sees it. */
  datatype File = Missing | Corrupt | Parsed(json: Json)

  /** The document saved to the configuration file, or None where the firmware reports failure. */
  function MergeConfigFromBackup(config: File, backup: File, writable: bool): Option<Json> {
    if !backup.Parsed? then None
    else
      var configDoc := if config.Parsed? then config.json else Null;
      var merged := MergeJsonObjects(configDoc, backup.json);
      if writable then Some(merged) else None
  }

  /**
   * A document is saved if and only if the backup can be read and the configuration written. A backup that is no object leaves a
   * readable configuration as it is.
   */
  lemma SavesIff(config: File, backup: File, writable: bool)
    ensures MergeConfigFromBackup(config, backup, writable).Some? <==> backup.Parsed? && writable
    ensures config.Parsed? && backup.Parsed? && !backup.json.Obj? && writable ==>
              MergeConfigFromBackup(config, backup, writable) == Some(config.json)
  {}

  /** The settings a configuration file holds: none if it is missing, unreadable or no object. */
  function Settings(config: File): Members {
    if config.Parsed? && config.json.Obj? then config.json.members else Nil
  }

  /**
   * When the document saved for a proper backup is the documented merge of both files' settings. A missing,
   * unreadable or null configuration needs a backup that is not empty; any other value that is no object, one
   * with an object to start over with.
   */
  predicate MergesAsDocumented(config: File, s: Members) {
    && W.Agree(Settings(config), s)
    && (if !config.Parsed? || config.json.Null? then s.Cons? else config.json.Obj? || AnyObj(s))
  }

  /** For every configuration file, missing and unreadable ones included. */
  lemma MergesAsDocumentedIff(config: File, s: Members)
    requires Unique(Settings(config)) && Unique(s)
    ensures MergeConfigFromBackup(config, Parsed(Obj(s)), true) == Some(Obj(M.Merge(Settings(config), s)))
            <==> MergesAsDocumented(config, s)
  {
    var t := Settings(config);
    OnObjects(t, s);
    W.CodeMeetsDocumentationIff(t, s);
    if !config.Parsed? {
      OnOtherTargets(Null, s);
      W.FromEmpty(s);
    } else if !config.json.Obj? {
      OnOtherTargets(config.json, s);
      W.FromEmpty(s);
    }
  }

  /** Without a configuration, the documented merge is saved if and only if the backup is not empty and has objects only in first place. */
  lemma MissingConfigAsDocumentedIff(config: File, s: Members)
    requires !config.Parsed? && Unique(s)
    ensures MergeConfigFromBackup(config, Parsed(Obj(s)), true) == Some(Obj(M.Merge(Nil, s))) <==> s.Cons? && W.ObjectsFirst(s)
  {
    MergesAsDocumentedIff(config, s);
    W.AgreeWithEmptyIff(s);
  }

  /**
   * If the configuration is missing or unreadable, or lacks any top-level object of the backup, the
   * saved document is the collapsed backup: no setting of the old configuration survives.
   */
  lemma LosesConfiguration(config: File, s: Members)
    requires Unique(s) && s.Cons?
    requires config.Parsed? ==> config.json.Obj? && !W.Covers(config.json.members, s)
    ensures MergeConfigFromBackup(config, Parsed(Obj(s)), true) == Some(Obj(W.Collapse(s)))
  {
    if config.Parsed? {
      OnObjects(config.json.members, s);
      W.UncoveredCollapses(config.json.members, s);
    } else {
      OnOtherTargets(Null, s);
    }
  }

  lemma {:induction false} CollapseKeepsTail(before: Members, k: string, last: Members, leaves: Members)
    requires !AnyObj(leaves)
    ensures var s := Append(before, Cons(k, Obj(last), leaves));
            AnyObj(s) && W.Collapse(s) == Cons(k, Obj(W.Collapse(last)), leaves)
  {
    if before.Cons? {
      CollapseKeepsTail(before.rest, k, last, leaves);
    }
  }

  /** How the shipped backup ends. */
  const HARDWARE: Members := Cons("led", Bool(true), Cons("oled", Bool(true), Cons("level", Int(128), Nil)))
  const SHIPPED_TAIL: Members := Cons("hardware", Obj(HARDWARE), Cons("ota", Bool(true), Nil))

  /**
   * A call with a missing or unreadable configuration would reduce a backup that ends like the shipped one
   * to that end, whatever sections (wifi, mqtt, calibration, auto, admin) come before it.
   */
  lemma MissingConfigKeepsTailOnly(config: File, before: Members)
    requires !config.Parsed? && Unique(Append(before, SHIPPED_TAIL))
    ensures MergeConfigFromBackup(config, Parsed(Obj(Append(before, SHIPPED_TAIL))), true) == Some(Obj(SHIPPED_TAIL))
  {
    CollapseKeepsTail(before, "hardware", HARDWARE, Cons("ota", Bool(true), Nil));
    W.LeavesUncollapsed(HARDWARE);
    LosesConfiguration(config, Append(before, SHIPPED_TAIL));
  }

  /** What `loadConfig` leaves in the configuration file: without one, a copy of the backup, or an empty file if that is missing too. */
  function LoadConfig(config: File, backup: File): File {
    if config.Missing? then (if backup.Missing? then Corrupt else backup) else config
  }

  /** After a first start, which copies the backup, a merge with that backup would keep every setting. */
  lemma FirstStartThenMergeKeepsAll(s: Members)
    requires Unique(s)
    ensures MergeConfigFromBackup(LoadConfig(Missing, Parsed(Obj(s))), Parsed(Obj(s)), true) == Some(Obj(s))
  {
    OnObjects(s, s);
    W.SelfAgrees(s);
  }
}
