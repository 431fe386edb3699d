/** The allocator entry point: sanitize the settings, then walk the platform's regions. */
module BufferAllocator {
  import opened Machine
  import opened OperatingSystem
  import opened Placeability
  import opened Settings
  import AllocatorLinux
  import AllocatorOsx
  import AllocatorWindows
  import opened LocatorItems

  /** Success leaves exactly the new block mapped, failure leaves the map alone; a granting
      system fails exactly when the map has no placeable block. */
  method Allocate(os: Os, settings: BufferAllocatorSettings) returns (r: Option<LocatorItem>)
    requires os.Valid() && settings.Value().Words(os.sys)
    modifies os, settings
    ensures os.Valid()
    ensures settings.Value() == old(settings.Value()).Sanitized(os.sys)
    ensures r.None? ==> os.mapped == old(os.mapped)
    ensures r.Some? ==> r.value == NewItem(r.value.baseAddress, settings.size)
    ensures r.Some? ==> Placed(os, settings.Value(), r.value.baseAddress)
    ensures r.Some? ==> Placeable(os.sys, old(os.mapped), settings.Value(), r.value.baseAddress)
    ensures os.granting && 0 < settings.retryCount
            ==> (r.Some? <==> exists a :: Placeable(os.sys, old(os.mapped), settings.Value(), a))
  {
    ghost var before := settings.Value();
    settings.Sanitize(os.sys);
    SanitizedSize(os.sys, before);
    var address;
    match os.sys.platform {
      case Windows => address := AllocatorWindows.AllocateFast(os, settings.Value());
      case Linux => address := AllocatorLinux.AllocateLinux(os, settings.Value());
      case MacOs => address := AllocatorOsx.AllocateOsx(os, settings.Value());
    }
    if address.None? {
      return None;
    }
    return Some(NewItem(address.value, settings.size));
  }
}
