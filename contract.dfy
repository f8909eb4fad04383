/**
  The aircraft-record contract's guarded store: the world state and the
  `maintenanceRecord` private collection as two maps from keys to bytes,
  and the transactions that check the caller's role, then the record's
  existence, and only then write.
 */
module AeroContract {
  import opened Wrappers
  import opened Access
  import opened Cursor

  /** An aircraft record. `amrDesc` is filled in only by a read, from the private collection. */
  datatype Aero = Aero(model: string, location: string, year: int, amrType: string, amrStatus: string,
                       amrDesc: Option<string>)

  /** The errors the transactions throw. */
  datatype Error =
    | Unauthorized(message: string)
    | AlreadyExists(id: string)
    | DoesNotExist(id: string)
    | Unparsable(id: string)

  const CreateRoles: seq<string> := [Maintenance]
  const UpdateRoles: seq<string> := [Maintenance]
  const DeleteRoles: seq<string> := [Maintenance, Operator]

  const CreateDenied: string := "Only Maintenance_team can create Aircraft record"
  const UpdateDenied: string := "Only Maintenance_team  can update Aircraft record"
  const DeleteDenied: string := "Only Maintenance_team or Operator can delete Aircraft record"

  /** The transient-map key whose value goes to the private collection. */
  const AmrDescKey: string := "amr_desc"

  /** Serialising a record yields non-empty bytes that parse back to the same record. */
  ghost predicate Codec(encode: Aero -> Bytes, decode: Bytes -> Option<Aero>)
  {
    forall a :: |encode(a)| > 0 && decode(encode(a)) == Some(a)
  }

  class AeroLedger {
    /** The world state: key to stored bytes. */
    var world: map<string, Bytes>
    /** The `maintenanceRecord` private collection: key to stored bytes. */
    var maintenanceRecord: map<string, Bytes>
    /** `Buffer.from(JSON.stringify(record))`. */
    const encode: Aero -> Bytes
    /** `JSON.parse(bytes.toString())`, None where parsing throws. */
    const decode: Bytes -> Option<Aero>
    /** `bytes.toString()`. */
    const toText: Bytes -> string

    ghost predicate Valid()
    {
      Codec(encode, decode)
    }

    constructor (world: map<string, Bytes>, maintenanceRecord: map<string, Bytes>,
                 encode: Aero -> Bytes, decode: Bytes -> Option<Aero>, toText: Bytes -> string)
      requires Codec(encode, decode)
      ensures Valid()
      ensures this.world == world && this.maintenanceRecord == maintenanceRecord
      ensures this.encode == encode && this.decode == decode && this.toText == toText
    {
      this.world := world;
      this.maintenanceRecord := maintenanceRecord;
      this.encode := encode;
      this.decode := decode;
      this.toText := toText;
    }

    /** `getState`: a key that was never written, or was deleted, reads as empty bytes. */
    function GetState(key: string): Bytes
      reads this
    {
      if key in world then world[key] else []
    }

    /** `getPrivateData` on `maintenanceRecord`: a missing key reads as empty bytes. */
    function GetPrivateData(key: string): Bytes
      reads this
    {
      if key in maintenanceRecord then maintenanceRecord[key] else []
    }

    /** A record exists when the world state holds non-empty bytes under its key. */
    predicate MyAeroExists(id: string)
      reads this
      ensures MyAeroExists(id) <==> id in world && |world[id]| > 0
    {
      |GetState(id)| > 0
    }

    /**
      Creates a record: only a Maintenance caller, only for a key that does
      not exist yet. The transient `amr_desc`, when present, goes to the
      private collection under the same key.
     */
    method CreateMyAero(caller: Identity, id: string, model: string, location: string, year: int,
                        amrType: string, amrStatus: string, transient: map<string, Bytes>)
      returns (out: Outcome<Error>)
      requires Valid()
      modifies this`world, this`maintenanceRecord
      ensures out == if !Authorized(caller, CreateRoles) then Fail(Unauthorized(CreateDenied))
                     else if old(MyAeroExists(id)) then Fail(AlreadyExists(id))
                     else Pass
      ensures out.Fail? ==> world == old(world) && maintenanceRecord == old(maintenanceRecord)
      ensures out.Pass? ==> world == old(world)[id := encode(Aero(model, location, year, amrType, amrStatus, None))]
      ensures out.Pass? ==> maintenanceRecord == if AmrDescKey in transient
                                                 then old(maintenanceRecord)[id := transient[AmrDescKey]]
                                                 else old(maintenanceRecord)
      ensures out.Pass? ==> MyAeroExists(id) && decode(world[id]) == Some(Aero(model, location, year, amrType, amrStatus, None))
    {
      var hasAccess := HasRole(caller, CreateRoles);
      if !hasAccess {
        return Fail(Unauthorized(CreateDenied));
      }
      var found := MyAeroExists(id);
      if found {
        return Fail(AlreadyExists(id));
      }
      var myAero := Aero(model, location, year, amrType, amrStatus, None);
      world := world[id := encode(myAero)];
      if AmrDescKey in transient {
        maintenanceRecord := maintenanceRecord[id := transient[AmrDescKey]];
      }
      return Pass;
    }

    /**
      Reads a record. A missing record and unparsable stored bytes are
      errors. When the private read succeeds (`privateReadable`), `amrDesc`
      is set to the text of the private entry; when it throws, the record is
      returned as parsed.
     */
    method ReadMyAero(id: string, privateReadable: bool) returns (r: Result<Aero, Error>)
      ensures !MyAeroExists(id) ==> r == Failure(DoesNotExist(id))
      ensures MyAeroExists(id) && decode(world[id]).None? ==> r == Failure(Unparsable(id))
      ensures MyAeroExists(id) && decode(world[id]).Some? ==>
                r == Success(if privateReadable
                             then decode(world[id]).value.(amrDesc := Some(toText(GetPrivateData(id))))
                             else decode(world[id]).value)
    {
      var found := MyAeroExists(id);
      if !found {
        return Failure(DoesNotExist(id));
      }
      var data := GetState(id);
      var parsed := decode(data);
      if parsed.None? {
        return Failure(Unparsable(id));
      }
      var myAero := parsed.value;
      if privateReadable {
        var privBuffer := GetPrivateData(id);
        myAero := myAero.(amrDesc := Some(toText(privBuffer)));
      }
      return Success(myAero);
    }

    /** Overwrites every field of an existing record: only a Maintenance caller. */
    method UpdateMyAero(caller: Identity, id: string, model: string, location: string, year: int,
                        amrType: string, amrStatus: string)
      returns (out: Outcome<Error>)
      requires Valid()
      modifies this`world
      ensures out == if !Authorized(caller, UpdateRoles) then Fail(Unauthorized(UpdateDenied))
                     else if !old(MyAeroExists(id)) then Fail(DoesNotExist(id))
                     else Pass
      ensures out.Fail? ==> world == old(world)
      ensures out.Pass? ==> world == old(world)[id := encode(Aero(model, location, year, amrType, amrStatus, None))]
      ensures out.Pass? ==> MyAeroExists(id) && decode(world[id]) == Some(Aero(model, location, year, amrType, amrStatus, None))
    {
      var hasAccess := HasRole(caller, UpdateRoles);
      if !hasAccess {
        return Fail(Unauthorized(UpdateDenied));
      }
      var found := MyAeroExists(id);
      if !found {
        return Fail(DoesNotExist(id));
      }
      var myAero := Aero(model, location, year, amrType, amrStatus, None);
      world := world[id := encode(myAero)];
      return Pass;
    }

    /**
      Deletes an existing record: a Maintenance or an Operator caller. The
      private collection is not touched.
     */
    method DeleteMyAero(caller: Identity, id: string) returns (out: Outcome<Error>)
      modifies this`world
      ensures out == if !Authorized(caller, DeleteRoles) then Fail(Unauthorized(DeleteDenied))
                     else if !old(MyAeroExists(id)) then Fail(DoesNotExist(id))
                     else Pass
      ensures out.Fail? ==> world == old(world)
      ensures out.Pass? ==> world == old(world) - {id} && !MyAeroExists(id)
    {
      var hasAccess := HasRole(caller, DeleteRoles);
      if !hasAccess {
        return Fail(Unauthorized(DeleteDenied));
      }
      var found := MyAeroExists(id);
      if !found {
        return Fail(DoesNotExist(id));
      }
      world := world - {id};
      return Pass;
    }
  }

  /** Create and update admit exactly an Org1MSP caller claiming Maintenance. */
  lemma WriteAccessTable(caller: Identity)
    ensures Authorized(caller, CreateRoles) <==> caller == Identity(Org1, Some(Maintenance))
    ensures Authorized(caller, UpdateRoles) <==> caller == Identity(Org1, Some(Maintenance))
  {
  }

  /** Delete admits exactly an Org1MSP caller claiming Maintenance or an Org2MSP caller claiming Operator. */
  lemma DeleteAccessTable(caller: Identity)
    ensures Authorized(caller, DeleteRoles) <==>
            caller == Identity(Org1, Some(Maintenance)) || caller == Identity(Org2, Some(Operator))
  {
  }

  /**
    Claims that do not match the organisation are useless: an Org2MSP caller
    claiming Maintenance can neither create nor update, an Org1MSP caller
    claiming Operator cannot delete, and an Operator cannot create or update.
   */
  lemma CrossOrganisationClaimsDenied()
    ensures !Authorized(Identity(Org2, Some(Maintenance)), CreateRoles)
    ensures !Authorized(Identity(Org2, Some(Maintenance)), UpdateRoles)
    ensures !Authorized(Identity(Org1, Some(Operator)), DeleteRoles)
    ensures !Authorized(Identity(Org2, Some(Operator)), CreateRoles)
  {
  }
}
