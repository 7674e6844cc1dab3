/** The supported chains and what each allows and costs, in micro-USDC. */
module Chains {
  datatype ChainKey =
    | ArcTestnet | BaseSepolia | ArbSepolia | OpSepolia | MaticAmoy | AvaxFuji
    | UnichainSepolia | HyperEvmTestnet | EthSepolia | SolDevnet

  datatype ChainConfig = ChainConfig(display: string, withdrawalsEnabled: bool, minWithdrawal: nat, platformFee: nat)

  function Config(key: ChainKey): ChainConfig {
    match key
    case ArcTestnet => ChainConfig("Arc", true, 1_000_000, 100_000)
    case BaseSepolia => ChainConfig("Base", true, 1_000_000, 210_000)
    case ArbSepolia => ChainConfig("Arbitrum", true, 1_000_000, 210_000)
    case OpSepolia => ChainConfig("Optimism", true, 1_000_000, 210_000)
    case MaticAmoy => ChainConfig("Polygon", true, 1_000_000, 210_000)
    case AvaxFuji => ChainConfig("Avalanche", true, 5_000_000, 350_000)
    case UnichainSepolia => ChainConfig("Unichain", true, 1_000_000, 210_000)
    case HyperEvmTestnet => ChainConfig("HyperEVM", false, 1_000_000, 210_000)
    case EthSepolia => ChainConfig("Ethereum", false, 20_000_000, 2_750_000)
    case SolDevnet => ChainConfig("Solana", true, 5_000_000, 400_000)
  }

  const ALL_CHAINS := [
    ArcTestnet, BaseSepolia, ArbSepolia, OpSepolia, MaticAmoy, AvaxFuji,
    UnichainSepolia, HyperEvmTestnet, EthSepolia, SolDevnet]
}
