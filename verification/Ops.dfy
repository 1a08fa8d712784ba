/** Opcode, decoration and storage-class numbers of the SPIR-V Specification
    (section 3) that the rewrites mention. */
module Ops {
  const STRING := 7
  const EXT_INST_IMPORT := 11
  const EXECUTION_MODE := 16
  const TYPE_BOOL := 20
  const TYPE_INT := 21
  const TYPE_FLOAT := 22
  const TYPE_VECTOR := 23
  const TYPE_POINTER := 32
  const CONSTANT_TRUE := 41
  const CONSTANT_FALSE := 42
  const CONSTANT := 43
  const CONSTANT_COMPOSITE := 44
  const SPEC_CONSTANT_TRUE := 48
  const SPEC_CONSTANT_FALSE := 49
  const SPEC_CONSTANT := 50
  const SPEC_CONSTANT_COMPOSITE := 51
  const SPEC_CONSTANT_OP := 52
  const FUNCTION := 54
  const VARIABLE := 59
  const LOAD := 61
  const STORE := 62
  const ACCESS_CHAIN := 65
  const DECORATE := 71
  const DECORATION_GROUP := 73
  const COMPOSITE_CONSTRUCT := 80
  const COMPOSITE_EXTRACT := 81
  const U_CONVERT := 113
  const BITCAST := 124
  const I_ADD := 128
  const I_MUL := 132
  const U_DIV := 134
  const I_EQUAL := 170
  const SHIFT_RIGHT_LOGICAL := 194
  const SHIFT_LEFT_LOGICAL := 196
  const BITWISE_OR := 197
  const CONTROL_BARRIER := 224
  const PHI := 245
  const LABEL := 248
  const EXECUTION_MODE_ID := 331

  const MODE_LOCAL_SIZE := 17
  const MODE_LOCAL_SIZE_ID := 38

  const SPEC_ID := 1
  const BUILT_IN := 11
  const BINDING := 33
  const DESCRIPTOR_SET := 34
  const WORKGROUP_SIZE := 25

  const STORAGE_BUFFER := 12

  /** Instructions that declare something and are never executed: debug names,
      entry points, modes, types, constants, variables and decorations
      (section 2.4, items 1 to 9 of the logical layout). */
  predicate Declarative(op: nat) {
    || 2 <= op <= 8 || 10 <= op <= 11 || 14 <= op <= 17
    || 19 <= op <= 39 || 41 <= op <= 52 || op == VARIABLE
    || 71 <= op <= 75 || 331 <= op <= 332
  }
}
