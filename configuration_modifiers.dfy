/**
 * The configuration value modifiers: run over the loaded configuration, each fills one
 * value when it is missing and reports whether it did. The configuration store is a
 * `Settings` object holding a map; the random client id is a parameter.
 */
module ConfigurationModifiers {
  import opened Results

  /** The portal address a configuration implies (an unset part reads "undefined"). */
  function PortalUrl(values: map<string, string>): string
  {
    "https://" + Interpolated(Get(values, "libraryName")) + "." + Interpolated(Get(values, "urlBase"))
  }

  /** A modifier's effect: the new values, and whether it reported a change. */
  datatype Modified = Modified(values: map<string, string>, changed: bool)

  /** `clientIdDefault`. */
  function ClientIdDefaulted(values: map<string, string>, freshId: string): Modified
  {
    if Truthy(Get(values, "clientId")) then Modified(values, false)
    else Modified(values["clientId" := freshId], true)
  }

  /** `urlDefault`. */
  function UrlDefaulted(values: map<string, string>): Modified
  {
    if Truthy(Get(values, "url")) then Modified(values, false)
    else Modified(values["url" := PortalUrl(values)], true)
  }

  /** Every value other than `key` is as it was. */
  predicate OnlyChanges(before: map<string, string>, after: map<string, string>, key: string)
  {
    && (forall k :: k in before && k != key ==> k in after && after[k] == before[k])
    && (forall k :: k in after && k != key ==> k in before)
  }

  /**
   * `clientIdDefault` changes something exactly when no client id was set, writes only the
   * client id, and a second run reports no change.
   */
  lemma ClientIdDefaultSpec(values: map<string, string>, freshId: string, laterId: string)
    requires freshId != ""
    ensures var m := ClientIdDefaulted(values, freshId);
      && (m.changed <==> !Truthy(Get(values, "clientId")))
      && (m.changed ==> m.values["clientId"] == freshId)
      && (!m.changed ==> m.values == values)
      && OnlyChanges(values, m.values, "clientId")
      && ClientIdDefaulted(m.values, laterId) == Modified(m.values, false)
  {
  }

  /**
   * `urlDefault` changes something exactly when no url was set, then writes the portal
   * address built from the library name and the url base, writes nothing else, and a
   * second run reports no change.
   */
  lemma UrlDefaultSpec(values: map<string, string>)
    ensures var m := UrlDefaulted(values);
      && (m.changed <==> !Truthy(Get(values, "url")))
      && (m.changed ==> m.values["url"] == PortalUrl(values))
      && (!m.changed ==> m.values == values)
      && OnlyChanges(values, m.values, "url")
      && UrlDefaulted(m.values) == Modified(m.values, false)
  {
    var m := UrlDefaulted(values);
    if m.changed {
      assert |PortalUrl(values)| > 0;
    }
  }

  /** `runValueModifiers`: both modifiers, client id first, and whether either changed anything. */
  function ModifiersRun(values: map<string, string>, freshId: string): Modified
  {
    var first := ClientIdDefaulted(values, freshId);
    var second := UrlDefaulted(first.values);
    Modified(second.values, first.changed || second.changed)
  }

  /**
   * The order does not matter: neither modifier reads what the other writes. After a run
   * both values are set, and a second run changes nothing.
   */
  lemma ModifiersIndependent(values: map<string, string>, freshId: string, laterId: string)
    requires freshId != ""
    ensures var run := ModifiersRun(values, freshId);
      && run.values == ClientIdDefaulted(UrlDefaulted(values).values, freshId).values
      && Truthy(Get(run.values, "clientId")) && Truthy(Get(run.values, "url"))
      && ModifiersRun(run.values, laterId) == Modified(run.values, false)
  {
    var first := ClientIdDefaulted(values, freshId);
    assert Get(first.values, "url") == Get(values, "url");
    assert Get(first.values, "libraryName") == Get(values, "libraryName");
    assert Get(first.values, "urlBase") == Get(values, "urlBase");
    UrlDefaultSpec(first.values);
    ClientIdDefaultSpec(values, freshId, laterId);
    var run := ModifiersRun(values, freshId);
    assert Get(run.values, "clientId") == Get(first.values, "clientId");
    UrlDefaultSpec(run.values);
  }

  /** The loaded configuration. */
  class Settings {
    var values: map<string, string>

    constructor (loaded: map<string, string>)
      ensures values == loaded
    {
      values := loaded;
    }

    /** `clientIdDefault`: `freshId` stands for the random UUID. */
    method ClientIdDefault(freshId: string) returns (changed: bool)
      modifies this
      ensures Modified(values, changed) == ClientIdDefaulted(old(values), freshId)
    {
      if Truthy(Get(values, "clientId")) {
        return false;
      }
      values := values["clientId" := freshId];
      changed := true;
    }

    /** `urlDefault`. */
    method UrlDefault() returns (changed: bool)
      modifies this
      ensures Modified(values, changed) == UrlDefaulted(old(values))
    {
      if Truthy(Get(values, "url")) {
        return false;
      }
      var libraryName := Get(values, "libraryName");
      var urlBase := Get(values, "urlBase");
      values := values["url" := "https://" + Interpolated(libraryName) + "." + Interpolated(urlBase)];
      changed := true;
    }

    /** `runValueModifiers`: every modifier runs, then the changes are or-ed. */
    method RunModifiers(freshId: string) returns (hasChanges: bool)
      modifies this
      ensures Modified(values, hasChanges) == ModifiersRun(old(values), freshId)
    {
      var first := ClientIdDefault(freshId);
      var second := UrlDefault();
      hasChanges := first || second;
    }
  }
}
