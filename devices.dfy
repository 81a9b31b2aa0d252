/** The device record's firmware-update accessors, the reset of the update
    flag, and the choice of the next playlist item to show. */
module Devices {
  import opened Php

  /** `proxy_cloud_response` after the `json` cast: null, or the decoded
      object as an associative array. */
  type Response = Option<map<string, Json>>

  const UpdateFirmwareKey: string := "update_firmware"
  const FirmwareUrlKey: string := "firmware_url"

  /** `$this->proxy_cloud_response` used as a condition: null and the empty
      array are both falsy. */
  predicate ResponsePresent(resp: Response) {
    resp.Some? && |resp.value| > 0
  }

  /** `update_firmware`: the cloud asked for an update. */
  function UpdateFirmware(resp: Response): (flag: bool)
    ensures flag <==> resp.Some? && UpdateFirmwareKey in resp.value && Truthy(resp.value[UpdateFirmwareKey])
  {
    ResponsePresent(resp) && Truthy(Get(resp.value, UpdateFirmwareKey))
  }

  /** `firmware_url`: the URL entry when it is there and truthy, otherwise null. */
  function FirmwareUrl(resp: Response): (url: Option<Json>)
    ensures url.Some? <==> resp.Some? && FirmwareUrlKey in resp.value && Truthy(resp.value[FirmwareUrlKey])
    ensures url.Some? ==> url.value == resp.value[FirmwareUrlKey] && url.value != JNull
  {
    if ResponsePresent(resp) && Truthy(Get(resp.value, FirmwareUrlKey)) then
      Some(Get(resp.value, FirmwareUrlKey))
    else
      None
  }

  /** The response after `resetUpdateFirmwareFlag`: `array_merge` with
      `['update_firmware' => false]` when there is a non-empty response,
      nothing otherwise. */
  function ResetFlag(resp: Response): (r: Response)
    ensures !ResponsePresent(resp) ==> r == resp
    ensures ResponsePresent(resp) ==>
              && r.Some?
              && r.value.Keys == resp.value.Keys + {UpdateFirmwareKey}
              && r.value[UpdateFirmwareKey] == JBool(false)
              && forall k :: k in resp.value && k != UpdateFirmwareKey ==> r.value[k] == resp.value[k]
  {
    if ResponsePresent(resp) then Some(resp.value[UpdateFirmwareKey := JBool(false)]) else resp
  }

  /** After a reset no update is pending, whatever the response held. */
  lemma ResetClearsUpdate(resp: Response)
    ensures !UpdateFirmware(ResetFlag(resp))
  {
  }

  /** A reset leaves the firmware URL as it was. */
  lemma ResetKeepsFirmwareUrl(resp: Response)
    ensures FirmwareUrl(ResetFlag(resp)) == FirmwareUrl(resp)
  {
  }

  /** Resetting twice is the same as resetting once. */
  lemma ResetIdempotent(resp: Response)
    ensures ResetFlag(ResetFlag(resp)) == ResetFlag(resp)
  {
    if ResponsePresent(resp) {
      var once := ResetFlag(resp).value;
      assert UpdateFirmwareKey in once;
      assert once[UpdateFirmwareKey := JBool(false)] == once;
    }
  }

  datatype PlaylistItem = PlaylistItem(id: int)

  /** A playlist row; `isActive` is its `is_active` column. Whether it is
      active at the current instant, and which item it offers next, are
      decided by the playlist itself and are passed in as functions. */
  datatype Playlist = Playlist(id: int, isActive: bool)

  /** `where('is_active', true)`: the active playlists, in their order. */
  function ActivePlaylists(playlists: seq<Playlist>): (active: seq<Playlist>)
    ensures forall p :: p in active <==> p in playlists && p.isActive
    ensures |active| <= |playlists|
  {
    if playlists == [] then []
    else if playlists[0].isActive then [playlists[0]] + ActivePlaylists(playlists[1..])
    else ActivePlaylists(playlists[1..])
  }

  /** Filtering keeps the relative order of the playlists. */
  lemma {:induction false} ActivePlaylistsAppend(a: seq<Playlist>, b: seq<Playlist>)
    ensures ActivePlaylists(a + b) == ActivePlaylists(a) + ActivePlaylists(b)
  {
    if a == [] {
      assert a + b == b;
    } else {
      assert (a + b)[1..] == a[1..] + b;
      ActivePlaylistsAppend(a[1..], b);
    }
  }

  /** The playlist is active now and has an item to offer. */
  predicate Yields(p: Playlist, isActiveNow: Playlist -> bool, nextItem: Playlist -> Option<PlaylistItem>) {
    isActiveNow(p) && nextItem(p).Some?
  }

  /** The item of the first playlist, in order, that yields one. */
  function FirstAvailable(playlists: seq<Playlist>, isActiveNow: Playlist -> bool,
                          nextItem: Playlist -> Option<PlaylistItem>): (item: Option<PlaylistItem>)
    ensures item.None? <==> forall p :: p in playlists ==> !Yields(p, isActiveNow, nextItem)
    ensures item.Some? ==>
              exists p :: p in playlists && Yields(p, isActiveNow, nextItem) && nextItem(p) == item
  {
    if playlists == [] then None
    else if Yields(playlists[0], isActiveNow, nextItem) then nextItem(playlists[0])
    else FirstAvailable(playlists[1..], isActiveNow, nextItem)
  }

  /** The search finds nothing exactly when no playlist yields, and what it
      finds is the item of a yielding playlist with none yielding before it. */
  lemma {:induction false} FirstAvailableIsFirstMatch(playlists: seq<Playlist>, isActiveNow: Playlist -> bool,
                                                      nextItem: Playlist -> Option<PlaylistItem>)
    ensures FirstAvailable(playlists, isActiveNow, nextItem).None? <==>
              forall j :: 0 <= j < |playlists| ==> !Yields(playlists[j], isActiveNow, nextItem)
    ensures FirstAvailable(playlists, isActiveNow, nextItem).Some? ==>
              exists k :: 0 <= k < |playlists| && Yields(playlists[k], isActiveNow, nextItem)
                && nextItem(playlists[k]) == FirstAvailable(playlists, isActiveNow, nextItem)
                && forall j :: 0 <= j < k ==> !Yields(playlists[j], isActiveNow, nextItem)
  {
    if playlists != [] && !Yields(playlists[0], isActiveNow, nextItem) {
      var rest := playlists[1..];
      FirstAvailableIsFirstMatch(rest, isActiveNow, nextItem);
      assert forall j :: 1 <= j < |playlists| ==> playlists[j] == rest[j - 1];
      if FirstAvailable(rest, isActiveNow, nextItem).Some? {
        var k :| 0 <= k < |rest| && Yields(rest[k], isActiveNow, nextItem)
                 && nextItem(rest[k]) == FirstAvailable(rest, isActiveNow, nextItem)
                 && forall j :: 0 <= j < k ==> !Yields(rest[j], isActiveNow, nextItem);
        assert playlists[k + 1] == rest[k];
      }
    }
  }

  /** Once a prefix has yielded an item, later playlists are never consulted. */
  lemma {:induction false} FirstAvailableIgnoresLater(playlists: seq<Playlist>, later: seq<Playlist>,
                                                      isActiveNow: Playlist -> bool,
                                                      nextItem: Playlist -> Option<PlaylistItem>)
    requires FirstAvailable(playlists, isActiveNow, nextItem).Some?
    ensures FirstAvailable(playlists + later, isActiveNow, nextItem) == FirstAvailable(playlists, isActiveNow, nextItem)
  {
    assert playlists != [];
    if !Yields(playlists[0], isActiveNow, nextItem) {
      assert (playlists + later)[1..] == playlists[1..] + later;
      FirstAvailableIgnoresLater(playlists[1..], later, isActiveNow, nextItem);
    }
  }

  /** A device with the `proxy_cloud_response` it last received and its
      playlists, in the order the relation returns them. */
  class Device {
    var proxyCloudResponse: Response
    var playlists: seq<Playlist>

    constructor (resp: Response, playlists: seq<Playlist>)
      ensures proxyCloudResponse == resp && this.playlists == playlists
    {
      proxyCloudResponse := resp;
      this.playlists := playlists;
    }

    /** `resetUpdateFirmwareFlag`: clears the update request in place and
        touches nothing else of the device. */
    method ResetUpdateFirmwareFlag()
      modifies this`proxyCloudResponse
      ensures proxyCloudResponse == ResetFlag(old(proxyCloudResponse))
      ensures !UpdateFirmware(proxyCloudResponse)
      ensures FirmwareUrl(proxyCloudResponse) == old(FirmwareUrl(proxyCloudResponse))
    {
      if proxyCloudResponse.Some? && |proxyCloudResponse.value| > 0 {
        proxyCloudResponse := Some(proxyCloudResponse.value[UpdateFirmwareKey := JBool(false)]);
      }
    }

    /** `getNextPlaylistItem`: walks the active playlists in order and
        returns the first item offered by one that is active now. */
    method NextPlaylistItem(isActiveNow: Playlist -> bool, nextItem: Playlist -> Option<PlaylistItem>)
      returns (item: Option<PlaylistItem>)
      ensures item == FirstAvailable(ActivePlaylists(playlists), isActiveNow, nextItem)
      ensures item.None? <==>
                forall p :: p in playlists && p.isActive ==> !Yields(p, isActiveNow, nextItem)
    {
      var active := ActivePlaylists(playlists);
      FirstAvailableIsFirstMatch(active, isActiveNow, nextItem);
      var i := 0;
      while i < |active|
        invariant 0 <= i <= |active|
        invariant forall j :: 0 <= j < i ==> !Yields(active[j], isActiveNow, nextItem)
        invariant FirstAvailable(active[i..], isActiveNow, nextItem) == FirstAvailable(active, isActiveNow, nextItem)
      {
        var playlist := active[i];
        if isActiveNow(playlist) {
          var next := nextItem(playlist);
          if next.Some? {
            return next;
          }
        }
        assert active[i..][1..] == active[i + 1..];
        i := i + 1;
      }
      return None;
    }
  }
}
