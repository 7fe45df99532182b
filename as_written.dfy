/** Two entry points of Pal.cpp whose code as written dereferences a NULL
    pointer: pal_add_remove_effect for every non-NULL handle, and
    pal_register_global_callback when there is no resource-manager
    instance. The functions here model that code as written; Pal.PalApi
    models the evidently intended behaviour, and the lemmas exhibit inputs
    on which the two differ. */
module AsWritten {
  import opened PalTypes
  import opened PalSpec

  /** How an entry point ends when run as written. */
  datatype Outcome = Returned(status: int) | NullDereference

  /** pal_add_remove_effect as written (Pal.cpp:504-534): `s` is set only
      inside the VoIP-TX branch, so for any non-NULL handle the
      getStreamType call at line 518 goes through a NULL `s`. */
  function AddRemoveEffectAsWritten(h: Stream?): Outcome
  {
    if h == null then Returned(-EINVAL) else NullDereference
  }

  /** Every non-NULL handle makes the code as written dereference NULL,
      where the corrected version asks the stream itself for its type and
      returns a status. */
  lemma AddRemoveEffectDereferencesNull(h: Stream, effect: nat, enable: bool, typeResult: int, effectResult: int)
    ensures AddRemoveEffectAsWritten(h) == NullDereference
    ensures AddRemoveEffectSpec(h, effect, enable, typeResult, effectResult).calls[0] == GetStreamType(h)
  {
  }

  /** pal_register_global_callback as written (Pal.cpp:694-706): unlike
      every other entry point that asks for the instance except pal_init
      (Pal.cpp:81-87, which relies on getInstance throwing), it does not
      test it for NULL before writing globalCb and cookie. */
  function RegisterGlobalCallbackAsWritten(instance: bool, cb: Pointer): Outcome
  {
    if cb.Ptr? && !instance then NullDereference else Returned(0)
  }

  /** Registering a non-NULL callback with no instance dereferences NULL. */
  lemma RegisterGlobalCallbackDereferencesNull(cb: Pointer)
    requires cb.Ptr?
    ensures RegisterGlobalCallbackAsWritten(false, cb) == NullDereference
    ensures RegisterGlobalCallbackAsWritten(true, cb) == Returned(0)
  {
  }
}
