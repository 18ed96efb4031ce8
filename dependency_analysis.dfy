/** The record a dependency analysis returns. */
module DependencyAnalyses {
  import opened Wrappers

  /** Every reference field may be null in the Java record, so each is an Option. */
  datatype DependencyAnalysis = DependencyAnalysis(
    success: bool,
    jarPath: Option<string>,
    requiredModules: Option<set<string>>,
    availableModules: Option<set<string>>,
    missingModules: Option<set<string>>,
    mainClass: Option<string>,
    errorMessage: Option<string>)
  {
    /** `hasRequiredModules`: the set is present and holds some module. */
    predicate HasRequiredModules() {
      requiredModules.Some? && requiredModules.value != {}
    }

    /** `hasMissingModules`: the set is present and holds some module. */
    predicate HasMissingModules() {
      missingModules.Some? && missingModules.value != {}
    }
  }

  /** `hasRequiredModules` holds exactly when some module is required (false for null). */
  lemma HasRequiredModulesMeansMember(a: DependencyAnalysis)
    ensures a.HasRequiredModules() <==> exists m :: a.requiredModules.Some? && m in a.requiredModules.value
  {
    if a.requiredModules.Some? && a.requiredModules.value != {} {
      var m :| m in a.requiredModules.value;
    }
  }

  /** `hasMissingModules` holds exactly when some module is missing (false for null). */
  lemma HasMissingModulesMeansMember(a: DependencyAnalysis)
    ensures a.HasMissingModules() <==> exists m :: a.missingModules.Some? && m in a.missingModules.value
  {
    if a.missingModules.Some? && a.missingModules.value != {} {
      var m :| m in a.missingModules.value;
    }
  }

  /** Each predicate reads only its own set: changing the other leaves it as it was. */
  lemma HasPredicatesIndependent(a: DependencyAnalysis, required: Option<set<string>>, missing: Option<set<string>>)
    ensures a.(missingModules := missing).HasRequiredModules() == a.HasRequiredModules()
    ensures a.(requiredModules := required).HasMissingModules() == a.HasMissingModules()
  {
  }
}
