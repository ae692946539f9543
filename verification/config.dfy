/** The configuration records and the class-level defaults they carry. */
module Config {

  datatype CascadeConfig = CascadeConfig(
    fractionInfected: real,
    influenceProbability: real,
    activityRate: real,
    baseInfluence: real,
    preferentialAmplification: real,
    iterations: int,
    seed: int)

  /** `CascadeConfig()` with every field at its dataclass default. */
  const DefaultCascade: CascadeConfig :=
    CascadeConfig(0.01, 0.05, 2.5, 0.05, 0.02, 60, 25)

  /** The engine multiplies by `1 + CascadeConfig.preferential_amplification`,
      the class attribute, never the per-call configuration's field. */
  const AmplificationFactor: real := 1.0 + DefaultCascade.preferentialAmplification

  datatype TopologyConfig = TopologyConfig(
    name: string,
    nodes: int,
    seed: int,
    nodeBirthProbability: real,
    directed: bool,
    noLinkedNodes: int,
    stageRelinkProbability: real,
    noLinkedEdges: int,
    triFormationProbability: real)
}
