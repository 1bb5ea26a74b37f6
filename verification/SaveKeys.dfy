/**
 The name of a save on every side of the system, and the formats of its parts.
 Characters stand for bytes.
 */
module SaveKeys {
  datatype Key = Key(rom: string, kind: string, slot: string)

  // Revisions and sizes are 64-bit.
  const MAX_INT64: int := 0x7fff_ffff_ffff_ffff

  predicate LowerHex(c: char) {
    '0' <= c <= '9' || 'a' <= c <= 'f'
  }

  predicate Hex64(s: string) {
    |s| == 64 && forall j | 0 <= j < |s| :: LowerHex(s[j])
  }

  predicate SlotName(s: string) {
    && 1 <= |s| <= 32
    && ('a' <= s[0] <= 'z' || '0' <= s[0] <= '9')
    && forall j | 0 <= j < |s| :: 'a' <= s[j] <= 'z' || '0' <= s[j] <= '9' || s[j] == '_' || s[j] == '-'
  }

  // What the service accepts.
  predicate ValidKey(key: Key) {
    && Hex64(key.rom)
    && key.kind in {"battery", "state", "auto_state"}
    && SlotName(key.slot)
    && (key.kind == "battery" ==> key.slot == "current")
    && (key.kind == "state" ==> key.slot in {"0", "1", "2", "3", "4"})
    && (key.kind == "auto_state" ==> key.slot == "auto")
  }

  lemma NotEmpty(s: string)
    ensures Hex64(s) ==> s != ""
  {
  }
}
