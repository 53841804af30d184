// The "microprofile/propertiesChanged" event shared by the JDT listener and
// the language server's project-info cache. The event class and its scope
// enumeration are not part of this model's sources: they are modelled from
// the way the listener and the cache use them.

module PropertiesEvents {
  import opened Wrappers

  /** MicroProfilePropertiesScope: what a change touched. */
  datatype Scope = OnlySources | OnlyConfigFiles | SourcesAndDependencies

  /** The value of an event: its scope and its project URIs (a null set is
    * None). */
  datatype EventValue = EventValue(scope: Scope, projectURIs: Option<set<string>>)

  /** MicroProfilePropertiesChangeEvent: both fields are set in place. */
  class ChangeEvent {
    var scope: Scope
    var projectURIs: Option<set<string>>

    function Value(): EventValue
      reads this
    {
      EventValue(scope, projectURIs)
    }

    constructor (scope: Scope, projectURIs: Option<set<string>>)
      ensures Value() == EventValue(scope, projectURIs)
    {
      this.scope := scope;
      this.projectURIs := projectURIs;
    }
  }
}
