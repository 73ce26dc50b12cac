/** Finding an object by its volume ID (pkg/csidriver/driver/k8s/logicvolume_service.go). */
module VolumeLookup {
  import opened Wrappers

  datatype LogicVolume = LogicVolume(name: string, volumeId: string)

  datatype Lookup = Found(lv: LogicVolume) | NotFound | Multiple | Failed

  /** How many of the objects have the ID. */
  function Count(objects: seq<LogicVolume>, id: string): nat {
    if objects == [] then 0
    else Count(objects[..|objects| - 1], id) + if objects[|objects| - 1].volumeId == id then 1 else 0
  }

  lemma {:induction false} CountNone(objects: seq<LogicVolume>, id: string)
    ensures Count(objects, id) == 0 <==> forall i | 0 <= i < |objects| :: objects[i].volumeId != id
  {
    if objects != [] {
      var n := |objects| - 1;
      CountNone(objects[..n], id);
      assert forall i | 0 <= i < n :: objects[..n][i] == objects[i];
    }
  }

  lemma {:induction false} CountOne(objects: seq<LogicVolume>, id: string) returns (k: nat)
    requires Count(objects, id) == 1
    ensures k < |objects| && objects[k].volumeId == id
    ensures forall i | 0 <= i < |objects| && i != k :: objects[i].volumeId != id
  {
    var n := |objects| - 1;
    assert forall i | 0 <= i < n :: objects[..n][i] == objects[i];
    if objects[n].volumeId == id {
      k := n;
      CountNone(objects[..n], id);
    } else {
      k := CountOne(objects[..n], id);
    }
  }

  /**
   The loop over the server's list. The pointer kept is to the loop variable, which ends up as the
   last object of the list.
   */
  method FindOnServer(server: seq<LogicVolume>, id: string) returns (r: Lookup)
    ensures Count(server, id) > 1 ==> r == Multiple
    ensures Count(server, id) == 0 ==> r == NotFound
    ensures Count(server, id) == 1 ==> r == Found(server[|server| - 1])
  {
    var count, found := 0, false;
    var lv := LogicVolume("", "");
    for i := 0 to |server|
      invariant count == Count(server[..i], id) && (found <==> count > 0)
      invariant i > 0 ==> lv == server[i - 1]
    {
      lv := server[i];
      assert server[..i + 1][..i] == server[..i];
      if lv.volumeId == id {
        count := count + 1;
        found := true;
      }
    }
    assert server[..|server|] == server;
    if count > 1 { return Multiple; }
    if !found { return NotFound; }
    return Found(lv);
  }

  /** GetByVolumeId. `cached` are the objects the index gives for the ID; a list that fails is None. */
  method GetByVolumeId(cached: Option<seq<LogicVolume>>, server: Option<seq<LogicVolume>>, id: string) returns (r: Lookup)
    ensures r == Failed <==> cached.None? || (cached.value == [] && server.None?)
    ensures r != Failed && |cached.value| > 1 ==> r == Multiple
    ensures r != Failed && |cached.value| == 1 ==> r == Found(cached.value[0])
    ensures r != Failed && cached.value == [] ==>
              var list := server.value;
              && (r == Multiple <==> Count(list, id) > 1) && (r == NotFound <==> Count(list, id) == 0)
              && (r.Found? ==> list != [] && r.lv == list[|list| - 1])
  {
    if cached.None? { return Failed; }
    if |cached.value| > 1 { return Multiple; }
    if |cached.value| != 0 { return Found(cached.value[0]); }
    if server.None? { return Failed; }
    r := FindOnServer(server.value, id);
  }

  /** What comes from the server's list has the ID if and only if the object with it is the last one. */
  lemma RightObjectIff(server: seq<LogicVolume>, id: string, k: nat)
    requires Count(server, id) == 1 && k < |server| && server[k].volumeId == id
    ensures server[|server| - 1].volumeId == id <==> k == |server| - 1
  {
    var j := CountOne(server, id);
  }
}
