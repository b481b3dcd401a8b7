/**
 * The `Platform` record of platform.yaml (pkg/schema/platform.go) and the
 * defaults a new platform starts from. Go's zero values are written out:
 * empty strings, zero numbers, false, and a nil map, which is kept apart
 * from an empty one.
 */
module Schema {
  import opened Common

  datatype APIConfig = APIConfig(uri: string, token: string)
  datatype Infrastructure = Infrastructure(metalProvider: string, api: APIConfig)
  datatype DNSConfig = DNSConfig(provider: string, domain: string)
  datatype EventBusConfig = EventBusConfig(application: string, port: int)
  datatype DataBusConfig = DataBusConfig(application: string, port: int, service: string, brokerCount: int)
  datatype BusConfig = BusConfig(ip: string, event: EventBusConfig, data: DataBusConfig)
  datatype Networking = Networking(privateNetwork: string, privateVIPNetwork: string, bus: BusConfig)
  datatype ChassisProfile = ChassisProfile(kind: string, count: int)
  datatype Resources = Resources(cpu: int, memory: string, gpu: string)
  datatype PlatformDefaults = PlatformDefaults(chassis: string, capabilities: seq<string>, resources: Resources)
  datatype PlatformFeatures = PlatformFeatures(displayOSRebuildConfirmation: bool,
                                               displayDataWipeConfirmation: bool, osWipeData: bool)
  datatype EnvironmentConfig = EnvironmentConfig(kind: string, autoDeploy: bool, monitoringLevel: string)

  datatype Platform = Platform(
    name: string,
    cluster: string,
    description: string,
    infrastructure: Infrastructure,
    dns: DNSConfig,
    networking: Networking,
    /** None is Go's nil map. */
    chassis: Option<map<string, seq<ChassisProfile>>>,
    defaults: PlatformDefaults,
    features: PlatformFeatures,
    environment: EnvironmentConfig)

  const DefaultPrivateNetwork := "192.168.0.0/16"

  /** The zero values of the nested records. */
  const NoAPI := APIConfig("", "")
  const NoBus := BusConfig("", EventBusConfig("", 0), DataBusConfig("", 0, "", 0))
  const NoDefaults := PlatformDefaults("", [], Resources(0, "", ""))
  const NoFeatures := PlatformFeatures(false, false, false)
  const NoEnvironment := EnvironmentConfig("", false, "")

  /** `NewPlatform`: the four given values in their places, the default
      private network, an empty (not nil) chassis map, and every other
      field at its zero value. */
  function NewPlatform(name: string, metalProvider: string, dnsProvider: string, domain: string): (p: Platform)
    ensures p.name == name && p.infrastructure.metalProvider == metalProvider
    ensures p.dns == DNSConfig(dnsProvider, domain)
    ensures p.networking.privateNetwork == DefaultPrivateNetwork
    ensures p.chassis.Some? && |p.chassis.value| == 0
    ensures p.cluster == "" && p.description == "" && p.infrastructure.api == NoAPI
    ensures p.networking.privateVIPNetwork == "" && p.networking.bus == NoBus
    ensures p.defaults == NoDefaults && p.features == NoFeatures && p.environment == NoEnvironment
  {
    Platform(name, "", "", Infrastructure(metalProvider, NoAPI), DNSConfig(dnsProvider, domain),
             Networking(DefaultPrivateNetwork, "", NoBus), Some(map[]), NoDefaults, NoFeatures, NoEnvironment)
  }

  /** Two new platforms differ only in what they were given. */
  lemma NewPlatformDeterminedByArguments(a: (string, string, string, string), b: (string, string, string, string))
    ensures NewPlatform(a.0, a.1, a.2, a.3) == NewPlatform(b.0, b.1, b.2, b.3) <==> a == b
  {
  }
}
