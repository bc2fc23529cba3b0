/** The modeling store (extensions/ql-vscode/src/model-editor/modeling-store.ts), as far as modeled methods and
    methods in progress are concerned: one record of state for each open database. */
module ModelingStores {
  import opened DataExtensions

  type ModeledMethods = map<string, seq<ModeledMethod>>

  datatype DbState = DbState(
    modeledMethods: ModeledMethods,
    modifiedMethodSignatures: set<string>,
    inProgressMethods: set<string>)

  const BLANK := DbState(map[], {}, {})

  /** Modeled in some form: one of the models is not of type "none". */
  predicate HasModel(ms: seq<ModeledMethod>) {
    exists i | 0 <= i < |ms| :: ms[i].modelType != NoType
  }

  predicate IsModeled(modeled: ModeledMethods, signature: string) {
    signature in modeled && HasModel(modeled[signature])
  }

  /** What `addModeledMethods` leaves: the new entries, under those that already hold a model. */
  function Merge(modeled: ModeledMethods, methods: ModeledMethods): ModeledMethods {
    methods + map s | s in modeled && HasModel(modeled[s]) :: modeled[s]
  }

  function AsSet(signatures: seq<string>): set<string> {
    set i | 0 <= i < |signatures| :: signatures[i]
  }

  /** How often a database has been opened, which the source does not record. */
  function Openings(openings: map<string, nat>, dbUri: string): nat {
    if dbUri in openings then openings[dbUri] else 0
  }

  /** The methods return whether the database is open; the source throws if it is not. */
  class ModelingStore {
    var state: map<string, DbState>
    var openings: map<string, nat>

    constructor ()
      ensures state == map[] && openings == map[]
    {
      state, openings := map[], map[];
    }

    /** A database that is open already loses its state, too. */
    method InitializeStateForDb(dbUri: string)
      modifies this
      ensures state == old(state)[dbUri := BLANK]
      ensures openings == old(openings)[dbUri := Openings(old(openings), dbUri) + 1]
    {
      state := state[dbUri := BLANK];
      openings := openings[dbUri := Openings(openings, dbUri) + 1];
    }

    method RemoveDb(dbUri: string) returns (ok: bool)
      modifies `state
      ensures ok == (dbUri in old(state))
      ensures state == old(state) - {dbUri}
    {
      ok := dbUri in state;
      if ok {
        state := state - {dbUri};
      } else {
        assert state - {dbUri} == state;
      }
    }

    method AddModeledMethods(dbUri: string, methods: ModeledMethods) returns (ok: bool)
      modifies `state
      ensures ok == (dbUri in old(state))
      ensures state == if ok then old(state)[dbUri := old(state)[dbUri].(
                                    modeledMethods := Merge(old(state)[dbUri].modeledMethods, methods))]
                       else old(state)
    {
      ok := dbUri in state;
      if ok {
        var modeled := state[dbUri].modeledMethods;
        var kept := map s | s in modeled && HasModel(modeled[s]) :: modeled[s];
        state := state[dbUri := state[dbUri].(modeledMethods := methods + kept)];
      }
    }

    /** Replaces all models of a database. */
    method SetModeledMethods(dbUri: string, methods: ModeledMethods) returns (ok: bool)
      modifies `state
      ensures ok == (dbUri in old(state))
      ensures state == if ok then old(state)[dbUri := old(state)[dbUri].(modeledMethods := methods)] else old(state)
    {
      ok := dbUri in state;
      if ok {
        state := state[dbUri := state[dbUri].(modeledMethods := methods)];
      }
    }

    method UpdateModeledMethods(dbUri: string, signature: string, modeledMethods: seq<ModeledMethod>)
      returns (ok: bool)
      modifies `state
      ensures ok == (dbUri in old(state))
      ensures state == if ok then old(state)[dbUri := old(state)[dbUri].(
                                    modeledMethods := old(state)[dbUri].modeledMethods[signature := modeledMethods])]
                       else old(state)
    {
      ok := dbUri in state;
      if ok {
        var modeled := state[dbUri].modeledMethods[signature := modeledMethods];
        state := state[dbUri := state[dbUri].(modeledMethods := modeled)];
      }
    }

    method AddModifiedMethods(dbUri: string, signatures: set<string>) returns (ok: bool)
      modifies `state
      ensures ok == (dbUri in old(state))
      ensures state ==
              if ok then old(state)[dbUri := old(state)[dbUri].(
                           modifiedMethodSignatures := old(state)[dbUri].modifiedMethodSignatures + signatures)]
              else old(state)
    {
      ok := dbUri in state;
      if ok {
        var modified := state[dbUri].modifiedMethodSignatures + signatures;
        state := state[dbUri := state[dbUri].(modifiedMethodSignatures := modified)];
      }
    }

    method AddInProgressMethods(dbUri: string, signatures: seq<string>) returns (ok: bool)
      modifies `state
      ensures ok == (dbUri in old(state))
      ensures state == if ok then old(state)[dbUri := old(state)[dbUri].(
                                    inProgressMethods := old(state)[dbUri].inProgressMethods + AsSet(signatures))]
                       else old(state)
    {
      ok := dbUri in state;
      if ok {
        var inProgress := state[dbUri].inProgressMethods + AsSet(signatures);
        state := state[dbUri := state[dbUri].(inProgressMethods := inProgress)];
      }
    }

    method RemoveInProgressMethods(dbUri: string, signatures: seq<string>) returns (ok: bool)
      modifies `state
      ensures ok == (dbUri in old(state))
      ensures state == if ok then old(state)[dbUri := old(state)[dbUri].(
                                    inProgressMethods := old(state)[dbUri].inProgressMethods - AsSet(signatures))]
                       else old(state)
    {
      ok := dbUri in state;
      if ok {
        var inProgress := set s | s in state[dbUri].inProgressMethods && s !in signatures;
        assert inProgress == state[dbUri].inProgressMethods - AsSet(signatures);
        state := state[dbUri := state[dbUri].(inProgressMethods := inProgress)];
      }
    }
  }
}
